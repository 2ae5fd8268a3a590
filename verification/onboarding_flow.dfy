/** The top-level controller: a four-stage machine (selection, loading,
    questions, review) owning the persona and the `OnboardingData` record,
    composed with the question and review screens it renders. */
module OnboardingFlow {

  import opened Wrappers
  import opened Data
  import opened Catalog
  import Strings
  import QF = QuestionFlow
  import RS = ReviewScreen

  // ---------------------------------------------------------------------
  // The controller on its own
  // ---------------------------------------------------------------------

  /** `FlowState`. */
  datatype Stage = Selection | Loading | Questions | Review

  /** `flowState`, `userType` and `onboardingData`. */
  datatype Parent = Parent(stage: Stage, userType: Option<Persona>, data: Record)

  /** The initial state, `{ userType: null }` on the selection screen. */
  const Start: Parent := Parent(Selection, None, map[UserTypeKey := Null])

  /** The record's `userType` is the controller's `userType`, and only the
      selection stage may have none. */
  predicate Consistent(s: Parent) {
    && (s.stage != Selection ==> s.userType.Some?)
    && UserTypeKey in s.data
    && s.data[UserTypeKey] == UserTypeValue(s.userType)
  }

  /** `handleSelection(p)`: the persona is chosen, the record is reset to
      nothing but the persona tag, and the loading screen follows. */
  function HandleSelection(s: Parent, p: Persona): (r: Parent)
    ensures r.stage == Loading && r.userType == Some(p)
    ensures r.data.Keys == {UserTypeKey}
    ensures Consistent(r)
  {
    Parent(Loading, Some(p), map[UserTypeKey := Str(PersonaName(p))])
  }

  /** `handleLoadingComplete`: on to the questions, record and persona kept. */
  function HandleLoadingComplete(s: Parent): (r: Parent)
    ensures r.stage == Questions && r.userType == s.userType && r.data == s.data
    ensures s.userType.Some? && Consistent(s) ==> Consistent(r)
  {
    s.(stage := Questions)
  }

  /** `handleReview(d)`: the record becomes the snapshot `d` and the review
      screen follows; the persona is kept. */
  function HandleReview(s: Parent, d: Record): (r: Parent)
    ensures r.stage == Review && r.userType == s.userType && r.data == d
    ensures Consistent(s) && s.userType.Some? && UserTypeKey in d && d[UserTypeKey] == s.data[UserTypeKey]
            ==> Consistent(r)
  {
    s.(stage := Review, data := d)
  }

  /** `handleComplete(d)`: the snapshot is only logged, so neither stage nor
      record changes. */
  function HandleComplete(s: Parent, d: Record): (r: Parent)
    ensures r.stage == s.stage && r.data == s.data && r.userType == s.userType
  {
    s
  }

  /** `handleBackToQuestions`: back to the questions, record kept. */
  function HandleBackToQuestions(s: Parent): (r: Parent)
    ensures r.stage == Questions && r.userType == s.userType && r.data == s.data
    ensures Consistent(s) && s.userType.Some? ==> Consistent(r)
  {
    s.(stage := Questions)
  }

  /** `handleBackToSelection`: persona and record are cleared, exactly as at
      the start. */
  function HandleBackToSelection(s: Parent): (r: Parent)
    ensures r.stage == Selection && r.userType == None && r.data == map[UserTypeKey := Null]
    ensures Consistent(r)
  {
    Start
  }

  /** Which screen the controller renders. */
  datatype View = SelectionView | LoadingView(p: Persona) | QuestionsView(p: Persona)
                | ReviewView(p: Persona) | Blank

  /** The render guards: every stage but selection also needs a persona,
      and renders nothing without one. */
  function Render(s: Parent): (v: View)
    ensures v == Blank <==> s.stage != Selection && s.userType.None?
    ensures v.LoadingView? || v.QuestionsView? || v.ReviewView? ==> s.userType == Some(v.p)
    ensures s.stage == Selection ==> v == SelectionView
    ensures s.stage == Loading && s.userType.Some? ==> v == LoadingView(s.userType.value)
    ensures s.stage == Questions && s.userType.Some? ==> v == QuestionsView(s.userType.value)
    ensures s.stage == Review && s.userType.Some? ==> v == ReviewView(s.userType.value)
  {
    match s.stage
    case Selection => SelectionView
    case Loading => if s.userType.Some? then LoadingView(s.userType.value) else Blank
    case Questions => if s.userType.Some? then QuestionsView(s.userType.value) else Blank
    case Review => if s.userType.Some? then ReviewView(s.userType.value) else Blank
  }

  // ---------------------------------------------------------------------
  // The controller composed with its screens
  // ---------------------------------------------------------------------

  /** The controller with the state of the question and review screens;
      each screen's state is meaningful while its stage is rendered and is
      re-created whenever the stage is entered. */
  datatype Session = Session(parent: Parent, flow: QF.State, review: RS.State)

  /** The user's inputs, on whichever screen is showing. */
  datatype Action =
    | Choose(persona: Persona)
    | LoadingFinished
    | ToggleChip(option: string)
    | TypeOtherText(text: string)
    | AnswerWith(value: string)
    | NextPressed
    | BackPressed
    | EditPressed(id: string)
    | EditValue(value: string)
    | PickChip(option: string)
    | SavePressed
    | CancelPressed
    | SubmitPressed
    | BackToQuestionsPressed

  const Initial: Session := Session(Start, QF.State(0, map[], map[]), RS.State(None, map[]))

  /** Which chip handler the question screen runs: the source's own, or the
      one with the corrected "Other" toggle. */
  datatype ChipHandler = AsWritten | Corrected

  /** A chip click under handler `h`. Either handler keeps the step, changes
      only the current answer, to an array, and sends the merged record. */
  function ChipToggle(h: ChipHandler, qs: seq<Question>, data: Record, flow: QF.State, o: string): (r: QF.Reaction)
    requires QF.Valid(qs, flow)
    ensures r.state.step == flow.step
    ensures OnlyKeyChanged(flow.answers, r.state.answers, qs[flow.step].id)
    ensures r.state.answers[qs[flow.step].id].List?
    ensures r.event == QF.Update(Spread(data, r.state.answers))
  {
    match h
    case AsWritten => QF.HandleChipToggleAsWritten(qs, data, flow, o)
    case Corrected => QF.HandleChipToggle(qs, data, flow, o)
  }

  /** A single answer the question's input can produce: any text, or the
      empty choice or one of the listed options. */
  predicate Offers(q: Question, value: string)
    ensures Offers(q, value) ==> q.kind != Chips
    ensures q.kind == Text ==> Offers(q, value)
  {
    q.kind == Text || (q.kind == Dropdown && (value == "" || value in q.options))
  }

  /** The question the review editor is open on, found by id. */
  function EditingQuestion(qs: seq<Question>, editing: Option<string>): (r: Option<Question>)
    ensures r.Some? ==> editing == Some(r.value.id) && r.value in qs
    ensures editing.Some? && editing.value in IdSet(qs) ==> r.Some?
    decreases |qs|
  {
    match editing
    case None => None
    case Some(id) =>
      if qs == [] then None
      else if qs[0].id == id then Some(qs[0])
      else
        assert id in IdSet(qs) ==> id in IdSet(qs[1..]) by {
          if id in IdSet(qs) {
            var i :| 0 <= i < |qs| && qs[i].id == id;
            assert qs[1..][i - 1].id == id;
          }
        }
        EditingQuestion(qs[1..], editing)
  }

  /** Mounting the question screen. */
  function EnterQuestions(s: Session, qs: seq<Question>): (t: Session)
    ensures t.parent == s.parent && t.review == s.review
    ensures t.flow.step == 0 && t.flow.otherTexts == map[] && t.flow.answers.Keys == IdSet(qs)
  {
    s.(flow := QF.Mount(qs, s.parent.data))
  }

  /** A question-screen reaction reaching the controller: `onUpdate` stores
      the record, `onReview` moves on and mounts the review screen. */
  function Deliver(s: Session, qs: seq<Question>, r: QF.Reaction): (t: Session)
    ensures t.flow == r.state
    ensures r.event.Quiet? ==> t.parent == s.parent && t.review == s.review
    ensures r.event.Update? ==>
      t.parent == s.parent.(data := r.event.data) && t.review == s.review
    ensures r.event.Review? ==>
      && t.parent == s.parent.(stage := Review, data := r.event.data)
      && t.review == RS.Mount(qs, r.event.data)
    ensures r.event.BackToSelection? ==> t.parent == Start && t.review == s.review
  {
    var s1 := s.(flow := r.state);
    match r.event
    case Quiet => s1
    case Update(d) => s1.(parent := s1.parent.(data := d))
    case Review(d) => s1.(parent := HandleReview(s1.parent, d), review := RS.Mount(qs, d))
    case BackToSelection => s1.(parent := HandleBackToSelection(s1.parent))
  }

  /** An input on the question screen for catalog `qs`, with chip handler
      `h`; the Next button is disabled while the answer does not allow
      proceeding. */
  function QuestionsStep(s: Session, qs: seq<Question>, a: Action, h: ChipHandler): (t: Session)
    ensures t.parent.stage == s.parent.stage || t.parent.stage == Review || t.parent == Start
    ensures t.parent.userType == s.parent.userType || t.parent == Start
    ensures !QF.Valid(qs, s.flow) ==> t == s
    ensures QF.Valid(qs, s.flow) && a.ToggleChip? ==>
      var q := qs[s.flow.step];
      !(q.kind == Chips && a.option in q.options) ==> t == s
    ensures QF.Valid(qs, s.flow) && a.TypeOtherText? ==>
      var q := qs[s.flow.step];
      !(q.kind == Chips && QF.OtherSelected(QF.SelectionsOf(s.flow.answers, q.id))) ==> t == s
    ensures QF.Valid(qs, s.flow) && a.AnswerWith? && !Offers(qs[s.flow.step], a.value) ==> t == s
    ensures QF.Valid(qs, s.flow) && a.NextPressed? && !QF.CanProceed(qs[s.flow.step], s.flow.answers) ==> t == s
  {
    if !QF.Valid(qs, s.flow) then s
    else
      var q := qs[s.flow.step];
      var data := s.parent.data;
      match a
      case ToggleChip(o) =>
        if q.kind == Chips && o in q.options
        then Deliver(s, qs, ChipToggle(h, qs, data, s.flow, o)) else s
      case TypeOtherText(t) =>
        if q.kind == Chips && QF.OtherSelected(QF.SelectionsOf(s.flow.answers, q.id))
        then Deliver(s, qs, QF.HandleOtherTextChange(qs, data, s.flow, t)) else s
      case AnswerWith(v) =>
        if Offers(q, v) then Deliver(s, qs, QF.HandleAnswer(qs, data, s.flow, v)) else s
      case NextPressed =>
        if QF.CanProceed(q, s.flow.answers) then Deliver(s, qs, QF.HandleNext(qs, data, s.flow)) else s
      case BackPressed => Deliver(s, qs, QF.HandleBack(qs, s.flow))
      case _ => s
  }

  /** An input on the review screen for catalog `qs`. After a save the
      record comes back as the `data` prop and the buffer is re-read from it. */
  function ReviewStep(s: Session, qs: seq<Question>, a: Action): (t: Session)
    ensures t.parent.userType == s.parent.userType
    ensures t.parent.stage == s.parent.stage || (a.BackToQuestionsPressed? && t.parent.stage == Questions)
    ensures (a.EditValue? || a.PickChip? || a.SavePressed? || a.CancelPressed?) ==>
      EditingQuestion(qs, s.review.editing).None? ==> t == s
    ensures a.EditPressed? && a.id !in IdSet(qs) ==> t == s
    ensures a.SubmitPressed? ==> t.parent == s.parent && t.review == s.review
  {
    var data := s.parent.data;
    var rv := s.review;
    var open := EditingQuestion(qs, rv.editing);
    match a
    case EditPressed(id) =>
      if id in IdSet(qs) then s.(review := RS.HandleEdit(rv, id)) else s
    case EditValue(v) =>
      if open.Some? && Offers(open.value, v) then s.(review := RS.SetField(rv, open.value.id, v)) else s
    case PickChip(o) =>
      if open.Some? && open.value.kind == Chips && o in open.value.options
      then s.(review := RS.SetField(rv, open.value.id, o)) else s
    case SavePressed =>
      if open.Some? then Save(s, qs, open.value.id) else s
    case CancelPressed =>
      if open.Some? then s.(review := RS.HandleCancel(qs, data, rv)) else s
    case SubmitPressed =>
      var r := RS.HandleSubmit(data, rv);
      s.(parent := HandleComplete(s.parent, r.event.data), review := r.state)
    case BackToQuestionsPressed =>
      EnterQuestions(s.(parent := HandleBackToQuestions(s.parent)), qs)
    case _ => s
  }

  /** The Save button of the open editor: the buffer's value for `id` is
      saved, the record stored, and the buffer re-read from it. */
  function Save(s: Session, qs: seq<Question>, id: string): (t: Session)
    ensures t.parent.stage == s.parent.stage && t.parent.userType == s.parent.userType
    ensures t.review.editing == None && t.review.edited.Keys == IdSet(qs)
    ensures t.parent.data.Keys == s.parent.data.Keys + s.review.edited.Keys + {id}
    ensures t.parent.data[id] == OrEmpty(Lookup(s.review.edited, id))
    ensures forall k :: k in s.review.edited && k != id ==> t.parent.data[k] == s.review.edited[k]
    ensures forall k :: k in s.parent.data && k !in s.review.edited && k != id ==> t.parent.data[k] == s.parent.data[k]
  {
    var r := RS.HandleSave(s.parent.data, s.review, id, OrEmpty(Lookup(s.review.edited, id)));
    var d := r.event.data;
    s.(parent := s.parent.(data := d), review := r.state.(edited := RS.Buffer(qs, d)))
  }

  /** The stage moves the controller makes: selection to loading, loading
      to questions, questions to review or back to selection, review back
      to questions; or the stage stays. */
  predicate StageMove(from: Stage, to: Stage) {
    || from == to
    || (from == Selection && to == Loading)
    || (from == Loading && to == Questions)
    || (from == Questions && (to == Review || to == Selection))
    || (from == Review && to == Questions)
  }

  /** One input, handled by the screen the controller renders. */
  function Step(s: Session, a: Action, h: ChipHandler): (t: Session)
    ensures StageMove(s.parent.stage, t.parent.stage)
    ensures Render(s.parent) == Blank ==> t == s
    ensures t.parent.userType != s.parent.userType ==>
      (s.parent.stage == Selection && a.Choose?) || t.parent == Start
  {
    match Render(s.parent)
    case SelectionView =>
      if a.Choose? then s.(parent := HandleSelection(s.parent, a.persona)) else s
    case LoadingView(p) =>
      if a.LoadingFinished?
      then EnterQuestions(s.(parent := HandleLoadingComplete(s.parent)), QuestionsFor(p)) else s
    case QuestionsView(p) => QuestionsStep(s, QuestionsFor(p), a, h)
    case ReviewView(p) => ReviewStep(s, QuestionsFor(p), a)
    case Blank => s
  }

  function Run(s: Session, actions: seq<Action>, h: ChipHandler): Session
    decreases |actions|
  {
    if actions == [] then s else Run(Step(s, actions[0], h), actions[1..], h)
  }

  // ---------------------------------------------------------------------
  // The invariant of every reachable session
  // ---------------------------------------------------------------------

  /** For catalog `qs`: the record holds storable values and the mounted
      screen's state has its shape. */
  predicate Shaped(qs: seq<Question>, s: Session) {
    && QF.DataFits(qs, s.parent.data)
    && (s.parent.stage == Questions ==> QF.Valid(qs, s.flow) && QF.AnswersFit(qs, s.flow.answers))
    && (s.parent.stage == Review ==> RS.BufferFits(qs, s.review.edited))
  }

  /** The controller is consistent and, once a persona is chosen, the
      session is shaped for that persona's catalog. */
  predicate Inv(s: Session) {
    && Consistent(s.parent)
    && (s.parent.userType.Some? ==> Shaped(QuestionsFor(s.parent.userType.value), s))
  }

  /** What a screen input of catalog `qs` must keep: the controller stays
      consistent, and either the persona is kept with the session shaped,
      or the persona is cleared. */
  predicate Kept(qs: seq<Question>, s: Session, t: Session) {
    && Consistent(t.parent)
    && ((t.parent.userType == s.parent.userType && Shaped(qs, t)) || t.parent.userType.None?)
  }

  /** The catalog facts the invariant rests on. */
  predicate CatalogOk(qs: seq<Question>) {
    && |qs| > 0
    && UniqueIds(qs)
    && UserTypeKey !in IdSet(qs)
    && forall i :: 0 <= i < |qs| ==> QF.OptionsPlain(qs[i])
  }

  lemma PersonaCatalogOk(p: Persona)
    ensures CatalogOk(QuestionsFor(p))
  {
    CatalogIdsUnique();
    NoQuestionIsUserType();
    QF.CreatorOptionsPlain();
    QF.EntrepreneurOptionsPlain();
  }

  /** A snapshot `{ ...data, ...answers }` with catalog ids keeps the tag. */
  lemma SpreadKeepsTag(qs: seq<Question>, data: Record, over: Record)
    requires CatalogOk(qs) && over.Keys == IdSet(qs) && UserTypeKey in data
    ensures UserTypeKey in Spread(data, over) && Spread(data, over)[UserTypeKey] == data[UserTypeKey]
  {
  }

  lemma DeliverKeepsInv(s: Session, qs: seq<Question>, r: QF.Reaction)
    requires CatalogOk(qs) && Consistent(s.parent) && Shaped(qs, s)
    requires s.parent.stage == Questions && s.parent.userType.Some?
    requires QF.Valid(qs, r.state) && QF.AnswersFit(qs, r.state.answers)
    requires r.event.Update? || r.event.Review? ==> r.event.data == Spread(s.parent.data, r.state.answers)
    ensures Kept(qs, s, Deliver(s, qs, r))
  {
    if r.event.Update? || r.event.Review? {
      SpreadKeepsTag(qs, s.parent.data, r.state.answers);
      QF.SpreadFits(qs, s.parent.data, r.state.answers);
      if r.event.Review? {
        RS.BufferFitsData(qs, r.event.data);
      }
    }
  }

  lemma QuestionsStepKeepsInv(s: Session, qs: seq<Question>, a: Action)
    requires CatalogOk(qs) && Consistent(s.parent) && Shaped(qs, s)
    requires s.parent.stage == Questions && s.parent.userType.Some?
    ensures Kept(qs, s, QuestionsStep(s, qs, a, Corrected))
  {
    match a
    case ToggleChip(o) => ChipStepKeepsInv(s, qs, o);
    case TypeOtherText(t) => OtherTextStepKeepsInv(s, qs, t);
    case AnswerWith(v) => AnswerStepKeepsInv(s, qs, v);
    case NextPressed =>
      if QF.CanProceed(qs[s.flow.step], s.flow.answers) {
        var r := QF.HandleNext(qs, s.parent.data, s.flow);
        assert QuestionsStep(s, qs, a, Corrected) == Deliver(s, qs, r);
        DeliverKeepsInv(s, qs, r);
      }
    case BackPressed =>
      var r := QF.HandleBack(qs, s.flow);
      assert QuestionsStep(s, qs, a, Corrected) == Deliver(s, qs, r);
      DeliverKeepsInv(s, qs, r);
    case _ =>
  }

  lemma ChipStepKeepsInv(s: Session, qs: seq<Question>, o: string)
    requires CatalogOk(qs) && Consistent(s.parent) && Shaped(qs, s)
    requires s.parent.stage == Questions && s.parent.userType.Some?
    ensures Kept(qs, s, QuestionsStep(s, qs, ToggleChip(o), Corrected))
  {
    var q := qs[s.flow.step];
    if q.kind == Chips && o in q.options {
      CatalogChipIsPlain(qs, s.flow.step, o);
      var r := QF.HandleChipToggle(qs, s.parent.data, s.flow, o);
      ChipStepDelivers(s, qs, o, Corrected);
      QF.ChipToggleKeepsShape(qs, s.parent.data, s.flow, o);
      DeliverKeepsInv(s, qs, r);
    }
  }

  /** A chip of a checked catalog is the sentinel or an entry the free-text
      box does not own. */
  lemma CatalogChipIsPlain(qs: seq<Question>, i: nat, o: string)
    requires CatalogOk(qs) && i < |qs| && o in qs[i].options
    ensures o == OtherOption || !QF.IsOtherEntry(o)
  {
    if o != OtherOption {
      assert QF.OptionsPlain(qs[i]);
      var j :| 0 <= j < |qs[i].options| && qs[i].options[j] == o;
      QF.PlainOptionIsNotOther(o);
    }
  }

  /** A click on a listed chip is the handler's reaction, delivered. */
  lemma ChipStepDelivers(s: Session, qs: seq<Question>, o: string, h: ChipHandler)
    requires QF.Valid(qs, s.flow) && qs[s.flow.step].kind == Chips && o in qs[s.flow.step].options
    ensures QuestionsStep(s, qs, ToggleChip(o), h) == Deliver(s, qs, ChipToggle(h, qs, s.parent.data, s.flow, o))
  {
  }

  lemma OtherTextStepKeepsInv(s: Session, qs: seq<Question>, t: string)
    requires CatalogOk(qs) && Consistent(s.parent) && Shaped(qs, s)
    requires s.parent.stage == Questions && s.parent.userType.Some?
    ensures Kept(qs, s, QuestionsStep(s, qs, TypeOtherText(t), Corrected))
  {
    var q := qs[s.flow.step];
    if q.kind == Chips && QF.OtherSelected(QF.SelectionsOf(s.flow.answers, q.id)) {
      var r := QF.HandleOtherTextChange(qs, s.parent.data, s.flow, t);
      assert QuestionsStep(s, qs, TypeOtherText(t), Corrected) == Deliver(s, qs, r);
      QF.OtherTextChangeKeepsShape(qs, s.parent.data, s.flow, t);
      assert r.event == QF.Update(Spread(s.parent.data, r.state.answers));
      DeliverKeepsInv(s, qs, r);
    }
  }

  lemma AnswerStepKeepsInv(s: Session, qs: seq<Question>, v: string)
    requires CatalogOk(qs) && Consistent(s.parent) && Shaped(qs, s)
    requires s.parent.stage == Questions && s.parent.userType.Some?
    ensures Kept(qs, s, QuestionsStep(s, qs, AnswerWith(v), Corrected))
  {
    if Offers(qs[s.flow.step], v) {
      var r := QF.HandleAnswer(qs, s.parent.data, s.flow, v);
      assert QuestionsStep(s, qs, AnswerWith(v), Corrected) == Deliver(s, qs, r);
      QF.AnswerKeepsShape(qs, s.parent.data, s.flow, v);
      DeliverKeepsInv(s, qs, r);
    }
  }

  lemma ReviewStepKeepsInv(s: Session, qs: seq<Question>, a: Action)
    requires CatalogOk(qs) && Consistent(s.parent) && Shaped(qs, s)
    requires s.parent.stage == Review && s.parent.userType.Some?
    ensures Kept(qs, s, ReviewStep(s, qs, a))
  {
    var open := EditingQuestion(qs, s.review.editing);
    match a
    case EditValue(v) =>
      if open.Some? && Offers(open.value, v) {
        assert ReviewStep(s, qs, a) == s.(review := RS.SetField(s.review, open.value.id, v));
        EditKeepsBuffer(qs, s.review, open.value, v);
      }
    case PickChip(o) =>
      if open.Some? && open.value.kind == Chips && o in open.value.options {
        assert ReviewStep(s, qs, a) == s.(review := RS.SetField(s.review, open.value.id, o));
        EditKeepsBuffer(qs, s.review, open.value, o);
      }
    case SavePressed =>
      if open.Some? {
        assert ReviewStep(s, qs, a) == Save(s, qs, open.value.id);
        var i :| 0 <= i < |qs| && qs[i] == open.value;
        SaveKeepsInv(s, qs, i);
      }
    case _ => ReviewNavKeepsInv(s, qs, a);
  }

  /** Opening an editor, cancelling, submitting and leaving review. */
  lemma ReviewNavKeepsInv(s: Session, qs: seq<Question>, a: Action)
    requires CatalogOk(qs) && Consistent(s.parent) && Shaped(qs, s)
    requires s.parent.stage == Review && s.parent.userType.Some?
    requires !a.EditValue? && !a.PickChip? && !a.SavePressed?
    ensures Kept(qs, s, ReviewStep(s, qs, a))
  {
    match a
    case CancelPressed =>
      RS.BufferFitsData(qs, s.parent.data);
    case BackToQuestionsPressed =>
      QF.MountFits(qs, s.parent.data);
    case _ =>
  }

  lemma SaveKeepsInv(s: Session, qs: seq<Question>, i: nat)
    requires CatalogOk(qs) && i < |qs|
    requires Consistent(s.parent) && s.parent.userType.Some?
    requires QF.DataFits(qs, s.parent.data) && RS.BufferFits(qs, s.review.edited)
    ensures var t := Save(s, qs, qs[i].id);
      && Consistent(t.parent) && t.parent.stage == s.parent.stage && t.parent.userType == s.parent.userType
      && QF.DataFits(qs, t.parent.data) && RS.BufferFits(qs, t.review.edited)
  {
    var data := s.parent.data;
    var rv := s.review;
    var id := qs[i].id;
    IdInIdSet(qs, i);
    var r := RS.HandleSave(data, rv, id, OrEmpty(Lookup(rv.edited, id)));
    RS.OrEmptyOfStored(qs[i], rv.edited[id]);
    assert r.state.edited == rv.edited;
    var d := r.event.data;
    assert d == Spread(data, rv.edited);
    SpreadKeepsTag(qs, data, rv.edited);
    RS.SpreadBufferFits(qs, data, rv.edited);
    RS.BufferFitsData(qs, d);
  }

  /** A single string written into the buffer keeps it storable. */
  lemma EditKeepsBuffer(qs: seq<Question>, rv: RS.State, q: Question, v: string)
    requires UniqueIds(qs) && RS.BufferFits(qs, rv.edited) && q in qs && rv.editing == Some(q.id)
    ensures RS.BufferFits(qs, RS.SetField(rv, q.id, v).edited)
  {
    var e := RS.SetField(rv, q.id, v).edited;
    assert q.id in IdSet(qs);
    forall i | 0 <= i < |qs| ensures QF.StoredFits(qs[i], e[qs[i].id]) {
    }
  }

  /** Every input keeps the invariant. */
  lemma StepKeepsInv(s: Session, a: Action)
    requires Inv(s)
    ensures Inv(Step(s, a, Corrected))
  {
    var p := s.parent.userType;
    match s.parent.stage
    case Selection =>
      StepOnSelection(s, a, Corrected);
      if a.Choose? {
        NoQuestionIsUserType();
      }
    case Loading =>
      StepOnLoading(s, a, Corrected);
      if a.LoadingFinished? {
        PersonaCatalogOk(p.value);
        QF.MountFits(QuestionsFor(p.value), s.parent.data);
      }
    case Questions =>
      StepOnQuestions(s, a, Corrected);
      PersonaCatalogOk(p.value);
      QuestionsStepKeepsInv(s, QuestionsFor(p.value), a);
    case Review =>
      StepOnReview(s, a, Corrected);
      PersonaCatalogOk(p.value);
      ReviewStepKeepsInv(s, QuestionsFor(p.value), a);
  }

  lemma {:induction false} RunKeepsInv(s: Session, actions: seq<Action>)
    requires Inv(s)
    ensures Inv(Run(s, actions, Corrected))
    decreases |actions|
  {
    if actions != [] {
      StepKeepsInv(s, actions[0]);
      RunKeepsInv(Step(s, actions[0], Corrected), actions[1..]);
    }
  }

  /** Over every sequence of inputs from the start, with the corrected
      "Other" toggle: the record's `userType` equals the chosen persona,
      every stage past selection has one (so a screen is always rendered),
      and a chips answer being edited holds at most one "Other" entry. */
  lemma ReachableSessions(actions: seq<Action>)
    ensures var s := Run(Initial, actions, Corrected);
      && Lookup(s.parent.data, UserTypeKey) == UserTypeValue(s.parent.userType)
      && (s.parent.stage != Selection ==> s.parent.userType.Some?)
      && Render(s.parent) != Blank
      && (s.parent.stage == Questions ==>
            var qs := QuestionsFor(s.parent.userType.value);
            forall i :: 0 <= i < |qs| && qs[i].kind == Chips ==>
              var v := Lookup(s.flow.answers, qs[i].id);
              v.List? && QF.CountOther(v.items) <= 1)
  {
    RunKeepsInv(Initial, actions);
  }

  // ---------------------------------------------------------------------
  // What holds with either chip handler
  // ---------------------------------------------------------------------

  /** For catalog `qs`: the record holds values of storable types and the
      mounted screen's state has one value of the right type per question.
      Nothing bounds the "Other" entries. */
  predicate Framed(qs: seq<Question>, s: Session) {
    && QF.DataTyped(qs, s.parent.data)
    && (s.parent.stage == Questions ==> QF.Valid(qs, s.flow) && QF.AnswersTyped(qs, s.flow.answers))
    && (s.parent.stage == Review ==> RS.BufferTyped(qs, s.review.edited))
  }

  /** The controller is consistent and, once a persona is chosen, the
      session is framed for that persona's catalog. */
  predicate Tagged(s: Session) {
    && Consistent(s.parent)
    && (s.parent.userType.Some? ==> Framed(QuestionsFor(s.parent.userType.value), s))
  }

  /** `Kept` with `Framed` in place of `Shaped`. */
  predicate KeptFramed(qs: seq<Question>, s: Session, t: Session) {
    && Consistent(t.parent)
    && ((t.parent.userType == s.parent.userType && Framed(qs, t)) || t.parent.userType.None?)
  }

  lemma DeliverKeepsTag(s: Session, qs: seq<Question>, r: QF.Reaction)
    requires CatalogOk(qs) && Consistent(s.parent) && Framed(qs, s)
    requires s.parent.stage == Questions && s.parent.userType.Some?
    requires QF.Valid(qs, r.state) && QF.AnswersTyped(qs, r.state.answers)
    requires r.event.Update? || r.event.Review? ==> r.event.data == Spread(s.parent.data, r.state.answers)
    ensures KeptFramed(qs, s, Deliver(s, qs, r))
  {
    if r.event.Update? || r.event.Review? {
      SpreadKeepsTag(qs, s.parent.data, r.state.answers);
      QF.SpreadTyped(qs, s.parent.data, r.state.answers);
      if r.event.Review? {
        RS.BufferTypedData(qs, r.event.data);
      }
    }
  }

  lemma QuestionsStepKeepsTag(s: Session, qs: seq<Question>, a: Action, h: ChipHandler)
    requires CatalogOk(qs) && Consistent(s.parent) && Framed(qs, s)
    requires s.parent.stage == Questions && s.parent.userType.Some?
    ensures KeptFramed(qs, s, QuestionsStep(s, qs, a, h))
  {
    match a
    case ToggleChip(o) => ChipStepKeepsTag(s, qs, o, h);
    case TypeOtherText(t) => OtherTextStepKeepsTag(s, qs, t, h);
    case AnswerWith(v) => AnswerStepKeepsTag(s, qs, v, h);
    case NextPressed =>
      if QF.CanProceed(qs[s.flow.step], s.flow.answers) {
        var r := QF.HandleNext(qs, s.parent.data, s.flow);
        assert QuestionsStep(s, qs, a, h) == Deliver(s, qs, r);
        DeliverKeepsTag(s, qs, r);
      }
    case BackPressed =>
      var r := QF.HandleBack(qs, s.flow);
      assert QuestionsStep(s, qs, a, h) == Deliver(s, qs, r);
      DeliverKeepsTag(s, qs, r);
    case _ =>
  }

  lemma ChipStepKeepsTag(s: Session, qs: seq<Question>, o: string, h: ChipHandler)
    requires CatalogOk(qs) && Consistent(s.parent) && Framed(qs, s)
    requires s.parent.stage == Questions && s.parent.userType.Some?
    ensures KeptFramed(qs, s, QuestionsStep(s, qs, ToggleChip(o), h))
  {
    var q := qs[s.flow.step];
    if q.kind == Chips && o in q.options {
      var r := ChipToggle(h, qs, s.parent.data, s.flow, o);
      ChipStepDelivers(s, qs, o, h);
      QF.UpdateKeepsType(qs, s.flow.answers, r.state.answers, s.flow.step);
      DeliverKeepsTag(s, qs, r);
    }
  }

  lemma OtherTextStepKeepsTag(s: Session, qs: seq<Question>, t: string, h: ChipHandler)
    requires CatalogOk(qs) && Consistent(s.parent) && Framed(qs, s)
    requires s.parent.stage == Questions && s.parent.userType.Some?
    ensures KeptFramed(qs, s, QuestionsStep(s, qs, TypeOtherText(t), h))
  {
    var q := qs[s.flow.step];
    if q.kind == Chips && QF.OtherSelected(QF.SelectionsOf(s.flow.answers, q.id)) {
      var r := QF.HandleOtherTextChange(qs, s.parent.data, s.flow, t);
      assert QuestionsStep(s, qs, TypeOtherText(t), h) == Deliver(s, qs, r);
      QF.UpdateKeepsType(qs, s.flow.answers, r.state.answers, s.flow.step);
      assert r.event == QF.Update(Spread(s.parent.data, r.state.answers));
      DeliverKeepsTag(s, qs, r);
    }
  }

  lemma AnswerStepKeepsTag(s: Session, qs: seq<Question>, v: string, h: ChipHandler)
    requires CatalogOk(qs) && Consistent(s.parent) && Framed(qs, s)
    requires s.parent.stage == Questions && s.parent.userType.Some?
    ensures KeptFramed(qs, s, QuestionsStep(s, qs, AnswerWith(v), h))
  {
    if Offers(qs[s.flow.step], v) {
      var r := QF.HandleAnswer(qs, s.parent.data, s.flow, v);
      assert QuestionsStep(s, qs, AnswerWith(v), h) == Deliver(s, qs, r);
      QF.UpdateKeepsType(qs, s.flow.answers, r.state.answers, s.flow.step);
      DeliverKeepsTag(s, qs, r);
    }
  }

  lemma ReviewStepKeepsTag(s: Session, qs: seq<Question>, a: Action)
    requires CatalogOk(qs) && Consistent(s.parent) && Framed(qs, s)
    requires s.parent.stage == Review && s.parent.userType.Some?
    ensures KeptFramed(qs, s, ReviewStep(s, qs, a))
  {
    var open := EditingQuestion(qs, s.review.editing);
    match a
    case EditValue(v) =>
      if open.Some? && Offers(open.value, v) {
        assert ReviewStep(s, qs, a) == s.(review := RS.SetField(s.review, open.value.id, v));
        EditKeepsBufferTyped(qs, s.review, open.value, v);
      }
    case PickChip(o) =>
      if open.Some? && open.value.kind == Chips && o in open.value.options {
        assert ReviewStep(s, qs, a) == s.(review := RS.SetField(s.review, open.value.id, o));
        EditKeepsBufferTyped(qs, s.review, open.value, o);
      }
    case SavePressed =>
      if open.Some? {
        assert ReviewStep(s, qs, a) == Save(s, qs, open.value.id);
        var i :| 0 <= i < |qs| && qs[i] == open.value;
        SaveKeepsTag(s, qs, i);
      }
    case _ => ReviewNavKeepsTag(s, qs, a);
  }

  /** Opening an editor, cancelling, submitting and leaving review. */
  lemma ReviewNavKeepsTag(s: Session, qs: seq<Question>, a: Action)
    requires CatalogOk(qs) && Consistent(s.parent) && Framed(qs, s)
    requires s.parent.stage == Review && s.parent.userType.Some?
    requires !a.EditValue? && !a.PickChip? && !a.SavePressed?
    ensures KeptFramed(qs, s, ReviewStep(s, qs, a))
  {
    match a
    case CancelPressed =>
      RS.BufferTypedData(qs, s.parent.data);
    case BackToQuestionsPressed =>
      QF.MountTyped(qs, s.parent.data);
    case _ =>
  }

  lemma SaveKeepsTag(s: Session, qs: seq<Question>, i: nat)
    requires CatalogOk(qs) && i < |qs|
    requires Consistent(s.parent) && s.parent.userType.Some?
    requires QF.DataTyped(qs, s.parent.data) && RS.BufferTyped(qs, s.review.edited)
    ensures var t := Save(s, qs, qs[i].id);
      && Consistent(t.parent) && t.parent.stage == s.parent.stage && t.parent.userType == s.parent.userType
      && QF.DataTyped(qs, t.parent.data) && RS.BufferTyped(qs, t.review.edited)
  {
    var data := s.parent.data;
    var rv := s.review;
    var id := qs[i].id;
    IdInIdSet(qs, i);
    var r := RS.HandleSave(data, rv, id, OrEmpty(Lookup(rv.edited, id)));
    RS.OrEmptyOfStored(qs[i], rv.edited[id]);
    assert r.state.edited == rv.edited;
    var d := r.event.data;
    assert d == Spread(data, rv.edited);
    SpreadKeepsTag(qs, data, rv.edited);
    RS.SpreadBufferTyped(qs, data, rv.edited);
    RS.BufferTypedData(qs, d);
  }

  /** A single string written into the buffer keeps its types. */
  lemma EditKeepsBufferTyped(qs: seq<Question>, rv: RS.State, q: Question, v: string)
    requires UniqueIds(qs) && RS.BufferTyped(qs, rv.edited) && q in qs && rv.editing == Some(q.id)
    ensures RS.BufferTyped(qs, RS.SetField(rv, q.id, v).edited)
  {
    var e := RS.SetField(rv, q.id, v).edited;
    assert q.id in IdSet(qs);
    forall i | 0 <= i < |qs| ensures QF.StoredTyped(qs[i], e[qs[i].id]) {
    }
  }

  lemma StepKeepsTag(s: Session, a: Action, h: ChipHandler)
    requires Tagged(s)
    ensures Tagged(Step(s, a, h))
  {
    var p := s.parent.userType;
    match s.parent.stage
    case Selection =>
      StepOnSelection(s, a, h);
      if a.Choose? {
        NoQuestionIsUserType();
      }
    case Loading =>
      StepOnLoading(s, a, h);
      if a.LoadingFinished? {
        PersonaCatalogOk(p.value);
        QF.MountTyped(QuestionsFor(p.value), s.parent.data);
      }
    case Questions =>
      StepOnQuestions(s, a, h);
      PersonaCatalogOk(p.value);
      QuestionsStepKeepsTag(s, QuestionsFor(p.value), a, h);
    case Review =>
      StepOnReview(s, a, h);
      PersonaCatalogOk(p.value);
      ReviewStepKeepsTag(s, QuestionsFor(p.value), a);
  }

  lemma {:induction false} RunKeepsTag(s: Session, actions: seq<Action>, h: ChipHandler)
    requires Tagged(s)
    ensures Tagged(Run(s, actions, h))
    decreases |actions|
  {
    if actions != [] {
      StepKeepsTag(s, actions[0], h);
      RunKeepsTag(Step(s, actions[0], h), actions[1..], h);
    }
  }

  /** Over every sequence of inputs from the start, with either chip
      handler, the source's own included: the record's `userType` equals
      the chosen persona and every stage past selection has one, so a
      screen is always rendered; on the question screen every chips answer
      is an array and every other answer a string, and in the review buffer
      every text or dropdown answer is a string. */
  lemma ReachableSessionsEitherHandler(actions: seq<Action>, h: ChipHandler)
    ensures var s := Run(Initial, actions, h);
      && Lookup(s.parent.data, UserTypeKey) == UserTypeValue(s.parent.userType)
      && (s.parent.stage != Selection ==> s.parent.userType.Some?)
      && Render(s.parent) != Blank
      && (s.parent.stage == Questions ==>
            var qs := QuestionsFor(s.parent.userType.value);
            forall i :: 0 <= i < |qs| ==>
              var v := Lookup(s.flow.answers, qs[i].id);
              (qs[i].kind == Chips ==> v.List?) && (qs[i].kind != Chips ==> v.Str?))
      && (s.parent.stage == Review ==>
            var qs := QuestionsFor(s.parent.userType.value);
            forall i :: 0 <= i < |qs| && qs[i].kind != Chips ==> Lookup(s.review.edited, qs[i].id).Str?)
  {
    RunKeepsTag(Initial, actions, h);
  }

  /** Choosing "Other", typing "skateboarding" and clicking "Other" again. */
  const OtherClicks: seq<Action> :=
    [ToggleChip(OtherOption), TypeOtherText("skateboarding"), ToggleChip(OtherOption)]

  /** The "Other" discrepancy in a running session: on a chips question with
      nothing selected, `OtherClicks` leave the answer with two "Other"
      entries under the source's handler and with none under the corrected
      one, on the same question screen. */
  lemma OtherClicksInSession(s: Session, h: ChipHandler)
    requires s.parent.stage == Questions && s.parent.userType.Some?
    requires var qs := QuestionsFor(s.parent.userType.value);
      && QF.Valid(qs, s.flow) && qs[s.flow.step].kind == Chips && OtherOption in qs[s.flow.step].options
      && QF.SelectionsOf(s.flow.answers, qs[s.flow.step].id) == []
    ensures var t := Run(s, OtherClicks, h);
      && t.parent.stage == Questions && t.parent.userType == s.parent.userType
      && var qs := QuestionsFor(s.parent.userType.value);
      && t.flow.step == s.flow.step
      && QF.SelectionsOf(t.flow.answers, qs[s.flow.step].id)
         == (if h == AsWritten then ["Other: skateboarding", OtherOption] else [])
  {
    var qs := QuestionsFor(s.parent.userType.value);
    var s1 := Step(s, OtherClicks[0], h);
    var s2 := Step(s1, OtherClicks[1], h);
    var s3 := Step(s2, OtherClicks[2], h);
    RunOfThree(s, OtherClicks, h);
    OtherClicksOnScreen(s, qs, h);
    StepOnQuestions(s, OtherClicks[0], h);
    StepOnQuestions(s1, OtherClicks[1], h);
    StepOnQuestions(s2, OtherClicks[2], h);
  }

  lemma RunOfThree(s: Session, actions: seq<Action>, h: ChipHandler)
    requires |actions| == 3
    ensures Run(s, actions, h) == Step(Step(Step(s, actions[0], h), actions[1], h), actions[2], h)
  {
    var s1 := Step(s, actions[0], h);
    var s2 := Step(s1, actions[1], h);
    var s3 := Step(s2, actions[2], h);
    assert Run(s, actions, h) == Run(s1, actions[1..], h);
    assert Run(s1, actions[1..], h) == Run(s2, actions[2..], h);
    assert Run(s2, actions[2..], h) == Run(s3, actions[3..], h);
    assert actions[3..] == [];
  }

  /** On the question screen an input goes to the persona's catalog. */
  lemma StepOnQuestions(s: Session, a: Action, h: ChipHandler)
    requires s.parent.stage == Questions && s.parent.userType.Some?
    ensures Step(s, a, h) == QuestionsStep(s, QuestionsFor(s.parent.userType.value), a, h)
  {
  }

  lemma StepOnSelection(s: Session, a: Action, h: ChipHandler)
    requires s.parent.stage == Selection
    ensures Step(s, a, h) == if a.Choose? then s.(parent := HandleSelection(s.parent, a.persona)) else s
  {
  }

  lemma StepOnLoading(s: Session, a: Action, h: ChipHandler)
    requires s.parent.stage == Loading && s.parent.userType.Some?
    ensures Step(s, a, h) ==
      if a.LoadingFinished?
      then EnterQuestions(s.(parent := HandleLoadingComplete(s.parent)), QuestionsFor(s.parent.userType.value))
      else s
  {
  }

  lemma StepOnReview(s: Session, a: Action, h: ChipHandler)
    requires s.parent.stage == Review && s.parent.userType.Some?
    ensures Step(s, a, h) == ReviewStep(s, QuestionsFor(s.parent.userType.value), a)
  {
  }

  lemma OtherClicksOnScreen(s: Session, qs: seq<Question>, h: ChipHandler)
    requires s.parent.stage == Questions && s.parent.userType.Some?
    requires QF.Valid(qs, s.flow) && qs[s.flow.step].kind == Chips && OtherOption in qs[s.flow.step].options
    requires QF.SelectionsOf(s.flow.answers, qs[s.flow.step].id) == []
    ensures var s1 := QuestionsStep(s, qs, ToggleChip(OtherOption), h);
      var s2 := QuestionsStep(s1, qs, TypeOtherText("skateboarding"), h);
      var s3 := QuestionsStep(s2, qs, ToggleChip(OtherOption), h);
      && s1.parent.stage == Questions && s1.parent.userType == s.parent.userType
      && s2.parent.stage == Questions && s2.parent.userType == s.parent.userType
      && s3.parent.stage == Questions && s3.parent.userType == s.parent.userType
      && s3.flow.step == s.flow.step
      && QF.SelectionsOf(s3.flow.answers, qs[s.flow.step].id)
         == (if h == AsWritten then ["Other: skateboarding", OtherOption] else [])
  {
    var id := qs[s.flow.step].id;
    var s1 := QuestionsStep(s, qs, ToggleChip(OtherOption), h);
    ChipClickOnScreen(s, qs, OtherOption, h);
    if h == AsWritten {
      QF.OtherClickAsWritten(qs, s.parent.data, s.flow, []);
    } else {
      QF.OtherClickCorrected(qs, s.parent.data, s.flow, []);
    }
    assert QF.SelectionsOf(s1.flow.answers, id) == [OtherOption];
    assert QF.OtherSelected([OtherOption]) by { assert QF.IsOtherEntry([OtherOption][0]); }
    var s2 := QuestionsStep(s1, qs, TypeOtherText("skateboarding"), h);
    TypingOnScreen(s1, qs, "skateboarding", h);
    ChipClickOnScreen(s2, qs, OtherOption, h);
    if h == AsWritten {
      QF.AsWrittenHandlersDuplicateOther(qs, s.parent.data, s1.parent.data, s2.parent.data, s.flow);
    } else {
      QF.CorrectedHandlersClearOther(qs, s.parent.data, s1.parent.data, s2.parent.data, s.flow);
    }
  }

  /** A chip click on the question screen: the screen stays, and the flow
      state is the handler's. */
  lemma ChipClickOnScreen(s: Session, qs: seq<Question>, o: string, h: ChipHandler)
    requires s.parent.stage == Questions
    requires QF.Valid(qs, s.flow) && qs[s.flow.step].kind == Chips && o in qs[s.flow.step].options
    ensures var t := QuestionsStep(s, qs, ToggleChip(o), h);
      && t.parent.stage == Questions && t.parent.userType == s.parent.userType
      && t.flow == ChipToggle(h, qs, s.parent.data, s.flow, o).state
  {
    var r := ChipToggle(h, qs, s.parent.data, s.flow, o);
    assert QuestionsStep(s, qs, ToggleChip(o), h) == Deliver(s, qs, r);
  }

  /** Typing into the "Other" box on the question screen. */
  lemma TypingOnScreen(s: Session, qs: seq<Question>, text: string, h: ChipHandler)
    requires s.parent.stage == Questions
    requires QF.Valid(qs, s.flow) && qs[s.flow.step].kind == Chips
    requires QF.OtherSelected(QF.SelectionsOf(s.flow.answers, qs[s.flow.step].id))
    ensures var t := QuestionsStep(s, qs, TypeOtherText(text), h);
      && t.parent.stage == Questions && t.parent.userType == s.parent.userType
      && t.flow == QF.HandleOtherTextChange(qs, s.parent.data, s.flow, text).state
  {
    var r := QF.HandleOtherTextChange(qs, s.parent.data, s.flow, text);
    assert QuestionsStep(s, qs, TypeOtherText(text), h) == Deliver(s, qs, r);
  }

  /** Choosing the creator persona, finishing loading, naming the channel
      and moving on: the second creator question, chips, is showing. */
  const Opening: seq<Action> :=
    [Choose(Creator), LoadingFinished, AnswerWith("MyChannel"), NextPressed]

  /** The discrepancy from the start: a creator who opens the wizard, names
      the channel and then clicks "Other", types "skateboarding" and clicks
      "Other" again is left with two "Other" entries for `contentType`
      under the source's handler, and with none under the corrected one. */
  lemma AsWrittenSessionDuplicatesOther()
    ensures var t := Run(Initial, Opening + OtherClicks, AsWritten);
      && t.parent.stage == Questions
      && QF.SelectionsOf(t.flow.answers, "contentType") == ["Other: skateboarding", OtherOption]
      && QF.CountOther(QF.SelectionsOf(t.flow.answers, "contentType")) == 2
    ensures var t := Run(Initial, Opening + OtherClicks, Corrected);
      && t.parent.stage == Questions
      && QF.SelectionsOf(t.flow.answers, "contentType") == []
  {
    OpeningThenClicks(AsWritten);
    OpeningThenClicks(Corrected);
    QF.AsWrittenToggleDuplicatesOther();
  }

  lemma OpeningThenClicks(h: ChipHandler)
    ensures var t := Run(Initial, Opening + OtherClicks, h);
      && t.parent.stage == Questions
      && QF.SelectionsOf(t.flow.answers, "contentType")
         == (if h == AsWritten then ["Other: skateboarding", OtherOption] else [])
  {
    var s := Run(Initial, Opening, h);
    RunAppend(Initial, Opening, OtherClicks, h);
    OpeningReachesContentType(h);
    CreatorOpeningQuestions();
    OtherClicksInSession(s, h);
  }

  lemma {:induction false} RunAppend(s: Session, a: seq<Action>, b: seq<Action>, h: ChipHandler)
    ensures Run(s, a + b, h) == Run(Run(s, a, h), b, h)
    decreases |a|
  {
    if a == [] {
      assert a + b == b;
    } else {
      assert (a + b)[0] == a[0] && (a + b)[1..] == a[1..] + b;
      RunAppend(Step(s, a[0], h), a[1..], b, h);
    }
  }

  /** After `Opening` the creator's second question shows with nothing
      selected. */
  lemma OpeningReachesContentType(h: ChipHandler)
    ensures var s := Run(Initial, Opening, h);
      && s.parent.stage == Questions && s.parent.userType == Some(Creator)
      && QF.Valid(CreatorQuestions, s.flow) && s.flow.step == 1
      && QF.SelectionsOf(s.flow.answers, "contentType") == []
  {
    var s2 := Step(Step(Initial, Choose(Creator), h), LoadingFinished, h);
    OpeningRun(h);
    ChooseThenLoad(h);
    MountedContentTypeEmpty();
    CreatorOpeningQuestions();
    NameThenNext(s2, h);
  }

  lemma OpeningRun(h: ChipHandler)
    ensures var s2 := Step(Step(Initial, Choose(Creator), h), LoadingFinished, h);
      Run(Initial, Opening, h) == Step(Step(s2, AnswerWith("MyChannel"), h), NextPressed, h)
  {
    var s2 := Step(Step(Initial, Opening[0], h), Opening[1], h);
    assert Opening == Opening[..2] + Opening[2..];
    RunAppend(Initial, Opening[..2], Opening[2..], h);
    RunOfTwo(Initial, Opening[..2], h);
    RunOfTwo(s2, Opening[2..], h);
  }

  /** A fresh creator mount on the bare persona record selects nothing for
      `contentType`. */
  lemma MountedContentTypeEmpty()
    ensures QF.SelectionsOf(QF.Mount(CreatorQuestions, map[UserTypeKey := Str("creator")]).answers, "contentType") == []
  {
    var data := map[UserTypeKey := Str("creator")];
    CatalogIdsUnique();
    CreatorOpeningQuestions();
    assert Lookup(data, CreatorQuestions[1].id) == Null;
  }

  /** Naming the channel on the first creator question and pressing Next. */
  lemma NameThenNext(s: Session, h: ChipHandler)
    requires s.parent.stage == Questions && s.parent.userType == Some(Creator) && s.flow.step == 0
    ensures var t := Step(Step(s, AnswerWith("MyChannel"), h), NextPressed, h);
      && t.parent.stage == Questions && t.parent.userType == Some(Creator)
      && QF.Valid(CreatorQuestions, t.flow) && t.flow.step == 1
      && QF.SelectionsOf(t.flow.answers, "contentType") == QF.SelectionsOf(s.flow.answers, "contentType")
  {
    NameChannel(s, h);
    NextAfterName(Step(s, AnswerWith("MyChannel"), h), h);
  }

  lemma NameChannel(s: Session, h: ChipHandler)
    requires s.parent.stage == Questions && s.parent.userType == Some(Creator) && s.flow.step == 0
    ensures var t := Step(s, AnswerWith("MyChannel"), h);
      && t.parent.stage == Questions && t.parent.userType == Some(Creator) && t.flow.step == 0
      && Lookup(t.flow.answers, "channelName") == Str("MyChannel")
      && QF.SelectionsOf(t.flow.answers, "contentType") == QF.SelectionsOf(s.flow.answers, "contentType")
  {
    StepOnQuestions(s, AnswerWith("MyChannel"), h);
    CreatorOpeningQuestions();
    AnswerOnScreen(s, CreatorQuestions, "MyChannel", h);
  }

  lemma NextAfterName(s: Session, h: ChipHandler)
    requires s.parent.stage == Questions && s.parent.userType == Some(Creator) && s.flow.step == 0
    requires Lookup(s.flow.answers, "channelName") == Str("MyChannel")
    ensures var t := Step(s, NextPressed, h);
      && t.parent.stage == Questions && t.parent.userType == Some(Creator)
      && QF.Valid(CreatorQuestions, t.flow) && t.flow.step == 1
      && t.flow.answers == s.flow.answers
  {
    StepOnQuestions(s, NextPressed, h);
    CreatorOpeningQuestions();
    Strings.TrimOfTrimmed("MyChannel");
    NextOnScreen(s, CreatorQuestions, h);
  }

  /** A typed answer on the question screen replaces that answer only. */
  lemma AnswerOnScreen(s: Session, qs: seq<Question>, v: string, h: ChipHandler)
    requires s.parent.stage == Questions
    requires QF.Valid(qs, s.flow) && qs[s.flow.step].kind == Text
    ensures var t := QuestionsStep(s, qs, AnswerWith(v), h);
      && t.parent.stage == Questions && t.parent.userType == s.parent.userType
      && t.flow.step == s.flow.step
      && OnlyKeyChanged(s.flow.answers, t.flow.answers, qs[s.flow.step].id)
      && t.flow.answers[qs[s.flow.step].id] == Str(v)
      && forall k :: k != qs[s.flow.step].id ==> QF.SelectionsOf(t.flow.answers, k) == QF.SelectionsOf(s.flow.answers, k)
  {
    var r := QF.HandleAnswer(qs, s.parent.data, s.flow, v);
    assert QuestionsStep(s, qs, AnswerWith(v), h) == Deliver(s, qs, r);
  }

  /** Next on a question that is not the last moves one question on. */
  lemma NextOnScreen(s: Session, qs: seq<Question>, h: ChipHandler)
    requires s.parent.stage == Questions
    requires QF.Valid(qs, s.flow) && s.flow.step + 1 < |qs|
    requires QF.CanProceed(qs[s.flow.step], s.flow.answers)
    ensures var t := QuestionsStep(s, qs, NextPressed, h);
      && t.parent.stage == Questions && t.parent.userType == s.parent.userType
      && t.flow.step == s.flow.step + 1 && t.flow.answers == s.flow.answers
  {
    var r := QF.HandleNext(qs, s.parent.data, s.flow);
    assert QuestionsStep(s, qs, NextPressed, h) == Deliver(s, qs, r);
  }

  lemma RunOfTwo(s: Session, actions: seq<Action>, h: ChipHandler)
    requires |actions| == 2
    ensures Run(s, actions, h) == Step(Step(s, actions[0], h), actions[1], h)
  {
    var s1 := Step(s, actions[0], h);
    assert Run(s, actions, h) == Run(s1, actions[1..], h);
    assert Run(s1, actions[1..], h) == Run(Step(s1, actions[1], h), actions[2..], h);
    assert actions[2..] == [];
  }

  /** Choosing the creator and finishing loading mounts the creator
      questions on a record holding only the persona tag. */
  lemma ChooseThenLoad(h: ChipHandler)
    ensures var s := Step(Step(Initial, Choose(Creator), h), LoadingFinished, h);
      && s.parent == Parent(Questions, Some(Creator), map[UserTypeKey := Str("creator")])
      && s.flow == QF.Mount(CreatorQuestions, map[UserTypeKey := Str("creator")])
  {
  }
}
