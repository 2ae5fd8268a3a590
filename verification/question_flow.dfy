/** The question stage: one question at a time, with the answer store the
    step handlers edit and the per-question scratch text of the "Other" box. */
module QuestionFlow {

  import opened Wrappers
  import opened Strings
  import opened Seqs
  import opened Data
  import opened Catalog

  // ---------------------------------------------------------------------
  // The "Other" encoding inside a chips selection
  // ---------------------------------------------------------------------

  const OtherPrefix: string := "Other:"

  /** An entry the free-text box owns: a bare "Other" or "Other: <text>". */
  predicate IsOtherEntry(item: string) {
    item == OtherOption || StartsWith(item, OtherPrefix)
  }

  /** An entry the free-text box does not own. */
  predicate IsPlainEntry(item: string) {
    !IsOtherEntry(item)
  }

  /** An entry carrying custom text. */
  predicate IsEncodedOther(item: string) {
    StartsWith(item, OtherPrefix)
  }

  /** `isOtherSelected`: some entry belongs to the free-text box. */
  predicate OtherSelected(sel: seq<string>) {
    exists i :: 0 <= i < |sel| && IsOtherEntry(sel[i])
  }

  function CountOther(sel: seq<string>): nat {
    Count(sel, IsOtherEntry)
  }

  /** The entry written for typed text: `Other: ${text.trim()}`, or a bare
      "Other" once the trimmed text is empty. */
  function OtherEntry(text: string): (r: string)
    ensures IsOtherEntry(r)
    ensures Trim(text) == "" <==> r == OtherOption
    ensures Trim(text) != "" ==> IsEncodedOther(r) && r == "Other: " + Trim(text)
  {
    if Trim(text) != "" then
      var r := "Other: " + Trim(text);
      assert r[..|OtherPrefix|] == OtherPrefix;
      assert r != OtherOption by { assert |r| > |OtherOption|; }
      r
    else OtherOption
  }

  // ---------------------------------------------------------------------
  // Edits of a chips selection
  // ---------------------------------------------------------------------

  /** A click on a plain chip: every occurrence is filtered out when it is
      selected, otherwise it is appended. Membership flips; every other
      entry keeps its multiplicity. */
  function ToggleOption(sel: seq<string>, option: string): (r: seq<string>)
    ensures option in r <==> option !in sel
    ensures forall y :: y != option ==> multiset(r)[y] == multiset(sel)[y]
    ensures option !in sel ==> r == sel + [option]
  {
    if option in sel then Remove(sel, option) else sel + [option]
  }

  /** A removal keeps the other entries in their relative order. */
  lemma ToggleOptionKeepsOrder(sel: seq<string>, option: string)
    requires option in sel
    ensures IsSubsequence(ToggleOption(sel, option), sel)
  {
    FilterIsSubsequence(sel, Neq(option));
  }

  /** Toggling an unselected chip twice restores the selection exactly. */
  lemma {:induction false} ToggleOptionTwice(sel: seq<string>, option: string)
    requires option !in sel
    ensures ToggleOption(ToggleOption(sel, option), option) == sel
  {
    var keep := Neq(option);
    FilterAppend(sel, [option], keep);
    FilterKeepsAll(sel, keep);
    assert Filter([option], keep) == [];
  }

  /** Toggling any chip twice restores membership of every option. */
  lemma ToggleOptionTwiceMembership(sel: seq<string>, option: string, y: string)
    ensures y in ToggleOption(ToggleOption(sel, option), option) <==> y in sel
  {
    var once := ToggleOption(sel, option);
    var twice := ToggleOption(once, option);
    if y != option {
      assert y in twice <==> multiset(twice)[y] > 0;
      assert y in sel <==> multiset(sel)[y] > 0;
    }
  }

  /** The "Other" chip exactly as the source handles it: only a bare "Other"
      counts as selected, so an "Other: <text>" entry stays and a second,
      bare "Other" is appended beside it. */
  function ToggleOtherAsWritten(sel: seq<string>): (r: seq<string>)
    ensures OtherOption in sel ==> OtherOption !in r
    ensures OtherOption in sel ==> forall y :: y != OtherOption ==> multiset(r)[y] == multiset(sel)[y]
    ensures OtherOption in sel ==> IsSubsequence(r, sel)
    ensures OtherOption !in sel ==> r == sel + [OtherOption]
  {
    if OtherOption in sel then
      FilterIsSubsequence(sel, Neq(OtherOption));
      Remove(sel, OtherOption)
    else sel + [OtherOption]
  }

  /** After "Other" with text "skateboarding", a click on the (highlighted)
      "Other" chip leaves two "Other" entries in the answer. */
  lemma AsWrittenToggleDuplicatesOther()
    ensures OtherEntry("skateboarding") == "Other: skateboarding"
    ensures ToggleOtherAsWritten([OtherEntry("skateboarding")])
            == ["Other: skateboarding", OtherOption]
    ensures CountOther(ToggleOtherAsWritten([OtherEntry("skateboarding")])) == 2
  {
    assert IsTrimmed("skateboarding");
    AsWrittenToggleOfTyped("skateboarding");
  }

  /** The same for any text typed without surrounding white space. */
  lemma AsWrittenToggleOfTyped(t: string)
    requires IsTrimmed(t) && t != ""
    ensures OtherEntry(t) == "Other: " + t
    ensures ToggleOtherAsWritten([OtherEntry(t)]) == ["Other: " + t, OtherOption]
    ensures CountOther(ToggleOtherAsWritten([OtherEntry(t)])) == 2
  {
    var e := "Other: " + t;
    EntryOfTrimmed(t);
    assert e != OtherOption by { assert |e| > |OtherOption|; }
    assert ToggleOtherAsWritten([e]) == [e, OtherOption];
    assert e[..|OtherPrefix|] == OtherPrefix;
    CountOtherPair(e);
  }

  /** Text typed without surrounding white space is stored verbatim. */
  lemma EntryOfTrimmed(t: string)
    requires IsTrimmed(t) && t != ""
    ensures OtherEntry(t) == "Other: " + t
  {
    TrimOfTrimmed(t);
  }

  lemma CountOtherPair(e: string)
    requires IsOtherEntry(e)
    ensures CountOther([e, OtherOption]) == 2
  {
    var r := [e, OtherOption];
    assert r[1..] == [OtherOption];
    assert r[1..][1..] == [];
    assert IsOtherEntry(OtherOption);
    assert Count(r[1..], IsOtherEntry) == 1 + Count(r[1..][1..], IsOtherEntry);
    assert Count(r, IsOtherEntry) == 1 + Count(r[1..], IsOtherEntry);
  }

  /** In general: whenever the only "Other" entry carries text, the click
      adds a second "Other" entry instead of deselecting. */
  lemma AsWrittenToggleAddsSecondOther(sel: seq<string>)
    requires OtherOption !in sel && OtherSelected(sel)
    ensures CountOther(ToggleOtherAsWritten(sel)) == CountOther(sel) + 1
    ensures CountOther(ToggleOtherAsWritten(sel)) >= 2
  {
    CountAppend(sel, [OtherOption], IsOtherEntry);
    var i :| 0 <= i < |sel| && IsOtherEntry(sel[i]);
    assert CountOther(sel) != 0;
    assert [OtherOption][1..] == [];
  }

  /** The "Other" chip as evidently intended: a click on the highlighted chip
      removes every "Other" entry, with or without text; otherwise a bare
      "Other" is appended. Either way at most one "Other" entry remains. */
  function ToggleOther(sel: seq<string>): (r: seq<string>)
    ensures CountOther(r) <= 1
    ensures OtherSelected(sel) ==> !OtherSelected(r)
    ensures OtherSelected(sel) ==> forall y :: !IsOtherEntry(y) ==> multiset(r)[y] == multiset(sel)[y]
    ensures !OtherSelected(sel) ==> r == sel + [OtherOption]
  {
    if OtherSelected(sel) then
      var keep := IsPlainEntry;
      var r := Filter(sel, keep);
      FilterMultiplicity(sel, keep);
      assert CountOther(r) == 0;
      r
    else
      CountAppend(sel, [OtherOption], IsOtherEntry);
      assert [OtherOption][1..] == [];
      sel + [OtherOption]
  }

  /** Deselecting "Other" keeps the plain entries in their relative order. */
  lemma ToggleOtherKeepsOrder(sel: seq<string>)
    requires OtherSelected(sel)
    ensures IsSubsequence(ToggleOther(sel), sel)
  {
    FilterIsSubsequence(sel, IsPlainEntry);
  }

  /** A plain chip never changes how many "Other" entries there are. */
  lemma {:induction false} ToggleOptionKeepsOtherCount(sel: seq<string>, option: string)
    requires !IsOtherEntry(option)
    ensures CountOther(ToggleOption(sel, option)) == CountOther(sel)
  {
    if option in sel {
      CountFilter(sel, Neq(option), IsOtherEntry);
    } else {
      CountAppend(sel, [option], IsOtherEntry);
      assert [option][1..] == [];
    }
  }

  /** The first entry the free-text box owns (`findIndex`). */
  function FirstOther(sel: seq<string>): Option<nat> {
    FindFirst(sel, IsOtherEntry)
  }

  /** `handleOtherTextChange` on the selection: only the first "Other" entry
      is rewritten, to the entry for `text`; nothing changes when there is
      none. */
  function SetOtherText(sel: seq<string>, text: string): (r: seq<string>)
    ensures |r| == |sel|
    ensures !OtherSelected(sel) ==> r == sel
    ensures OtherSelected(sel) ==>
      var i := FirstOther(sel).value;
      && r[i] == OtherEntry(text)
      && (forall j :: 0 <= j < |sel| && j != i ==> r[j] == sel[j])
    ensures CountOther(r) == CountOther(sel)
  {
    match FirstOther(sel)
    case None => sel
    case Some(i) =>
      CountUpdate(sel, i, OtherEntry(text), IsOtherEntry);
      sel[i := OtherEntry(text)]
  }

  /** `getOtherTextFromAnswer` on a chips selection: the text after the first
      "Other:" prefix, trimmed; empty when no entry carries text. */
  function DecodeOtherText(sel: seq<string>): (r: string)
    ensures IsTrimmed(r)
    ensures (forall i :: 0 <= i < |sel| ==> !IsEncodedOther(sel[i])) ==> r == ""
    ensures forall i :: 0 <= i < |sel| && IsEncodedOther(sel[i]) && (forall j :: 0 <= j < i ==> !IsEncodedOther(sel[j]))
                 ==> r == Trim(sel[i][|OtherPrefix|..])
  {
    match FindFirst(sel, IsEncodedOther)
    case None => ""
    case Some(k) =>
      assert forall i :: 0 <= i < |sel| && IsEncodedOther(sel[i]) && (forall j :: 0 <= j < i ==> !IsEncodedOther(sel[j]))
                 ==> i == k;
      assert "" + sel[k][|OtherPrefix|..] == sel[k][|OtherPrefix|..];
      Trim(ReplaceFirst(sel[k], OtherPrefix, ""))
  }

  /** The first entry carrying text in a selection rewritten by
      `SetOtherText` with non-blank text is the rewritten one. */
  lemma FirstEncodedAfterSet(sel: seq<string>, text: string)
    requires OtherSelected(sel) && Trim(text) != ""
    ensures FindFirst(SetOtherText(sel, text), IsEncodedOther) == FirstOther(sel)
  {
    var r := SetOtherText(sel, text);
    var i := FirstOther(sel).value;
    assert IsEncodedOther(r[i]);
    forall j | 0 <= j < i ensures !IsEncodedOther(r[j]) {
      assert !IsOtherEntry(sel[j]);
    }
  }

  /** Decoding the entry written for non-blank text gives the trimmed text. */
  lemma DecodeEntry(text: string)
    requires Trim(text) != ""
    ensures Trim(ReplaceFirst(OtherEntry(text), OtherPrefix, "")) == Trim(text)
  {
    DecodePrefixed(Trim(text));
  }

  lemma DecodePrefixed(t: string)
    requires IsTrimmed(t)
    ensures Trim(ReplaceFirst("Other: " + t, OtherPrefix, "")) == t
  {
    var e := "Other: " + t;
    assert e[..|OtherPrefix|] == OtherPrefix;
    assert "" + e[|OtherPrefix|..] == [' '] + t;
    TrimDropsLeadingSpace(' ', t);
  }

  /** Typing non-blank text and reading it back yields the trimmed text. */
  lemma OtherTextRoundTrip(sel: seq<string>, text: string)
    requires OtherSelected(sel) && Trim(text) != ""
    ensures DecodeOtherText(SetOtherText(sel, text)) == Trim(text)
  {
    FirstEncodedAfterSet(sel, text);
    DecodeEntry(text);
  }

  /** Clearing the text turns the rewritten entry back into a bare "Other". */
  lemma OtherTextCleared(sel: seq<string>, text: string)
    requires OtherSelected(sel) && AllSpace(text)
    ensures SetOtherText(sel, text)[FirstOther(sel).value] == OtherOption
    ensures DecodeOtherText(SetOtherText(sel, text)) == DecodeOtherText(sel[FirstOther(sel).value := OtherOption])
  {
  }

  // ---------------------------------------------------------------------
  // The component state and its handlers
  // ---------------------------------------------------------------------

  /** `currentStep`, `answers` and `otherTexts`. */
  datatype State = State(step: nat, answers: Record, otherTexts: map<string, string>)

  /** What a handler hands to the parent: `onUpdate`, `onReview`,
      `onBackToSelection`, or nothing. */
  datatype Event = Quiet | Update(data: Record) | Review(data: Record) | BackToSelection

  datatype Reaction = Reaction(state: State, event: Event)

  /** `currentStep` indexes the catalog. */
  predicate Valid(qs: seq<Question>, s: State) {
    s.step < |qs|
  }

  /** `(answers[id] as string[]) || []` for a stored array; anything else
      reads as no selection. */
  function SelectionsOf(answers: Record, id: string): (r: seq<string>)
    ensures Lookup(answers, id).List? ==> r == Lookup(answers, id).items
    ensures !Lookup(answers, id).List? ==> r == []
  {
    if id in answers && answers[id].List? then answers[id].items else []
  }

  /** The initial answer of one question from the record: a chips answer
      becomes an array (a non-empty string is wrapped, anything else is
      empty), any other answer is `value || ''`. */
  function InitialAnswer(q: Question, v: Value): (r: Value)
    ensures q.kind == Chips ==> r.List?
    ensures q.kind == Chips && v.List? ==> r == v
    ensures q.kind == Chips && v.Str? && v.s != "" ==> r == List([v.s])
    ensures q.kind == Chips && (v == Null || v == Str("")) ==> r == List([])
    ensures q.kind != Chips ==> r == OrEmpty(v)
    ensures q.kind != Chips && v.Str? ==> r == v
    ensures q.kind != Chips && v == Null ==> r == Str("")
  {
    if q.kind == Chips then
      match v
      case List(xs) => v
      case Str(s) => if s != "" then List([s]) else List([])
      case Null => List([])
    else OrEmpty(v)
  }

  /** `initialAnswers`: one entry per catalog question, read from `data`. */
  function InitialAnswers(qs: seq<Question>, data: Record): (r: Record)
    ensures r.Keys == IdSet(qs)
    ensures UniqueIds(qs) ==>
      forall i :: 0 <= i < |qs| ==> r[qs[i].id] == InitialAnswer(qs[i], Lookup(data, qs[i].id))
  {
    var f := (q: Question) => InitialAnswer(q, Lookup(data, q.id));
    TabulateAll(qs, f);
    Tabulate(qs, f)
  }

  /** A fresh mount: the first question, answers read from `data`, no
      scratch text. This is also what returning from review gets. */
  function Mount(qs: seq<Question>, data: Record): (s: State)
    ensures s.step == 0 && s.otherTexts == map[]
    ensures s.answers.Keys == IdSet(qs)
    ensures UniqueIds(qs) ==>
      forall i :: 0 <= i < |qs| ==> s.answers[qs[i].id] == InitialAnswer(qs[i], Lookup(data, qs[i].id))
  {
    State(0, InitialAnswers(qs, data), map[])
  }

  /** `handleChipToggle(option)` on the current question. The "Other" chip
      uses the corrected toggle and drops the scratch text when it
      deselects. */
  function HandleChipToggle(qs: seq<Question>, data: Record, s: State, option: string): (r: Reaction)
    requires Valid(qs, s)
    ensures r.state.step == s.step
    ensures
      var id := qs[s.step].id;
      var sel := SelectionsOf(s.answers, id);
      && OnlyKeyChanged(s.answers, r.state.answers, id)
      && r.state.answers[id] == List(if option == OtherOption then ToggleOther(sel) else ToggleOption(sel, option))
      && (if option == OtherOption && OtherSelected(sel)
          then r.state.otherTexts == s.otherTexts - {id}
          else r.state.otherTexts == s.otherTexts)
    ensures r.event == Update(Spread(data, r.state.answers))
  {
    var id := qs[s.step].id;
    var sel := SelectionsOf(s.answers, id);
    if option == OtherOption then
      var answers := s.answers[id := List(ToggleOther(sel))];
      UpdateChangesOnlyKey(s.answers, id, List(ToggleOther(sel)));
      var texts := if OtherSelected(sel) then s.otherTexts - {id} else s.otherTexts;
      Reaction(s.(answers := answers, otherTexts := texts), Update(Spread(data, answers)))
    else
      var answers := s.answers[id := List(ToggleOption(sel, option))];
      UpdateChangesOnlyKey(s.answers, id, List(ToggleOption(sel, option)));
      Reaction(s.(answers := answers), Update(Spread(data, answers)))
  }

  /** `handleChipToggle(option)` exactly as the source has it: the "Other"
      chip uses `ToggleOtherAsWritten`, and the scratch text is dropped only
      when a bare "Other" was there to remove. */
  function HandleChipToggleAsWritten(qs: seq<Question>, data: Record, s: State, option: string): (r: Reaction)
    requires Valid(qs, s)
    ensures r.state.step == s.step
    ensures
      var id := qs[s.step].id;
      var sel := SelectionsOf(s.answers, id);
      && OnlyKeyChanged(s.answers, r.state.answers, id)
      && r.state.answers[id] == List(if option == OtherOption then ToggleOtherAsWritten(sel) else ToggleOption(sel, option))
      && (if option == OtherOption && OtherOption in sel
          then r.state.otherTexts == s.otherTexts - {id}
          else r.state.otherTexts == s.otherTexts)
    ensures r.event == Update(Spread(data, r.state.answers))
  {
    var id := qs[s.step].id;
    var sel := SelectionsOf(s.answers, id);
    if option == OtherOption then
      var answers := s.answers[id := List(ToggleOtherAsWritten(sel))];
      UpdateChangesOnlyKey(s.answers, id, List(ToggleOtherAsWritten(sel)));
      var texts := if OtherOption in sel then s.otherTexts - {id} else s.otherTexts;
      Reaction(s.(answers := answers, otherTexts := texts), Update(Spread(data, answers)))
    else
      var answers := s.answers[id := List(ToggleOption(sel, option))];
      UpdateChangesOnlyKey(s.answers, id, List(ToggleOption(sel, option)));
      Reaction(s.(answers := answers), Update(Spread(data, answers)))
  }

  /** The two handlers differ only on a selection holding an "Other: <text>"
      entry: while every "Other" entry is the bare chip, they agree. */
  lemma ChipTogglesAgreeWithoutText(qs: seq<Question>, data: Record, s: State, option: string)
    requires Valid(qs, s)
    requires var sel := SelectionsOf(s.answers, qs[s.step].id);
      forall j :: 0 <= j < |sel| && IsOtherEntry(sel[j]) ==> sel[j] == OtherOption
    ensures HandleChipToggleAsWritten(qs, data, s, option) == HandleChipToggle(qs, data, s, option)
  {
    var sel := SelectionsOf(s.answers, qs[s.step].id);
    if OtherSelected(sel) {
      assert OtherOption in sel;
      FilterAgree(sel, IsPlainEntry, Neq(OtherOption));
    }
  }

  /** The discrepancy through the handlers: on a chips question with nothing
      selected, clicking "Other", typing "skateboarding" and clicking "Other"
      again leaves two "Other" entries. */
  lemma AsWrittenHandlersDuplicateOther(qs: seq<Question>, d1: Record, d2: Record, d3: Record, s: State)
    requires Valid(qs, s) && SelectionsOf(s.answers, qs[s.step].id) == []
    ensures var id := qs[s.step].id;
      var s1 := HandleChipToggleAsWritten(qs, d1, s, OtherOption).state;
      var s2 := HandleOtherTextChange(qs, d2, s1, "skateboarding").state;
      var s3 := HandleChipToggleAsWritten(qs, d3, s2, OtherOption).state;
      SelectionsOf(s3.answers, id) == ["Other: skateboarding", OtherOption]
  {
    var s1 := HandleChipToggleAsWritten(qs, d1, s, OtherOption).state;
    OtherClickAsWritten(qs, d1, s, []);
    assert ToggleOtherAsWritten([]) == [OtherOption];
    var s2 := HandleOtherTextChange(qs, d2, s1, "skateboarding").state;
    TypingAfterOther(qs, d2, s1, "skateboarding");
    AsWrittenToggleDuplicatesOther();
    OtherClickAsWritten(qs, d3, s2, [OtherEntry("skateboarding")]);
  }

  /** The same clicks with the corrected handler leave no "Other" entry. */
  lemma CorrectedHandlersClearOther(qs: seq<Question>, d1: Record, d2: Record, d3: Record, s: State)
    requires Valid(qs, s) && SelectionsOf(s.answers, qs[s.step].id) == []
    ensures var id := qs[s.step].id;
      var s1 := HandleChipToggle(qs, d1, s, OtherOption).state;
      var s2 := HandleOtherTextChange(qs, d2, s1, "skateboarding").state;
      var s3 := HandleChipToggle(qs, d3, s2, OtherOption).state;
      SelectionsOf(s3.answers, id) == []
  {
    var s1 := HandleChipToggle(qs, d1, s, OtherOption).state;
    OtherClickCorrected(qs, d1, s, []);
    assert ToggleOther([]) == [OtherOption];
    var s2 := HandleOtherTextChange(qs, d2, s1, "skateboarding").state;
    TypingAfterOther(qs, d2, s1, "skateboarding");
    DeselectSingleOther(OtherEntry("skateboarding"));
    OtherClickCorrected(qs, d3, s2, [OtherEntry("skateboarding")]);
  }

  /** A click on "Other" with the source's handler, seen on the selection. */
  lemma OtherClickAsWritten(qs: seq<Question>, data: Record, s: State, sel: seq<string>)
    requires Valid(qs, s) && SelectionsOf(s.answers, qs[s.step].id) == sel
    ensures var t := HandleChipToggleAsWritten(qs, data, s, OtherOption).state;
      t.step == s.step && SelectionsOf(t.answers, qs[s.step].id) == ToggleOtherAsWritten(sel)
  {
  }

  /** A click on "Other" with the corrected handler, seen on the selection. */
  lemma OtherClickCorrected(qs: seq<Question>, data: Record, s: State, sel: seq<string>)
    requires Valid(qs, s) && SelectionsOf(s.answers, qs[s.step].id) == sel
    ensures var t := HandleChipToggle(qs, data, s, OtherOption).state;
      t.step == s.step && SelectionsOf(t.answers, qs[s.step].id) == ToggleOther(sel)
  {
  }

  /** Typing right after a bare "Other" was chosen writes the one entry. */
  lemma TypingAfterOther(qs: seq<Question>, data: Record, s: State, text: string)
    requires Valid(qs, s) && SelectionsOf(s.answers, qs[s.step].id) == [OtherOption]
    ensures var t := HandleOtherTextChange(qs, data, s, text).state;
      t.step == s.step && SelectionsOf(t.answers, qs[s.step].id) == [OtherEntry(text)]
  {
    assert OtherSelected([OtherOption]) by { assert IsOtherEntry([OtherOption][0]); }
    TypedOnBareOther(text);
  }

  /** Typing into the box of a bare "Other" rewrites that one entry. */
  lemma TypedOnBareOther(text: string)
    ensures SetOtherText([OtherOption], text) == [OtherEntry(text)]
  {
    assert IsOtherEntry([OtherOption][0]);
  }

  /** Deselecting the only entry, an "Other" one, empties the selection. */
  lemma DeselectSingleOther(e: string)
    requires IsOtherEntry(e)
    ensures ToggleOther([e]) == []
  {
    assert IsOtherEntry([e][0]);
    assert [e][1..] == [];
  }

  /** `handleOtherTextChange(text)`: the raw text is always kept as scratch;
      the answer (and the parent) change only when an "Other" entry exists. */
  function HandleOtherTextChange(qs: seq<Question>, data: Record, s: State, text: string): (r: Reaction)
    requires Valid(qs, s)
    ensures r.state.step == s.step
    ensures r.state.otherTexts == s.otherTexts[qs[s.step].id := text]
    ensures var id := qs[s.step].id; OtherSelected(SelectionsOf(s.answers, id)) ==>
      OnlyKeyChanged(s.answers, r.state.answers, id)
    ensures var id := qs[s.step].id; OtherSelected(SelectionsOf(s.answers, id)) ==>
      r.state.answers[id] == List(SetOtherText(SelectionsOf(s.answers, id), text))
    ensures OtherSelected(SelectionsOf(s.answers, qs[s.step].id)) ==>
      r.event == Update(Spread(data, r.state.answers))
    ensures !OtherSelected(SelectionsOf(s.answers, qs[s.step].id)) ==>
      r.state.answers == s.answers && r.event == Quiet
  {
    var id := qs[s.step].id;
    var sel := SelectionsOf(s.answers, id);
    var texts := s.otherTexts[id := text];
    if OtherSelected(sel) then
      var answers := s.answers[id := List(SetOtherText(sel, text))];
      UpdateChangesOnlyKey(s.answers, id, List(SetOtherText(sel, text)));
      Reaction(s.(answers := answers, otherTexts := texts), Update(Spread(data, answers)))
    else
      Reaction(s.(otherTexts := texts), Quiet)
  }

  /** `getOtherTextFromAnswer()` for the current question. */
  function OtherTextFromAnswer(q: Question, answers: Record): (r: string)
    ensures IsTrimmed(r)
    ensures q.kind != Chips || !Lookup(answers, q.id).List? ==> r == ""
    ensures q.kind == Chips ==> r == DecodeOtherText(SelectionsOf(answers, q.id))
  {
    if q.kind == Chips then DecodeOtherText(SelectionsOf(answers, q.id)) else ""
  }

  /** Reading back what the free-text box wrote yields the trimmed text. */
  lemma OtherTextChangeRoundTrip(qs: seq<Question>, data: Record, s: State, text: string)
    requires Valid(qs, s) && qs[s.step].kind == Chips
    requires OtherSelected(SelectionsOf(s.answers, qs[s.step].id)) && Trim(text) != ""
    ensures OtherTextFromAnswer(qs[s.step], HandleOtherTextChange(qs, data, s, text).state.answers) == Trim(text)
  {
    OtherTextRoundTrip(SelectionsOf(s.answers, qs[s.step].id), text);
  }

  /** `handleAnswer(value)`: overwrites the current question's answer only. */
  function HandleAnswer(qs: seq<Question>, data: Record, s: State, value: string): (r: Reaction)
    requires Valid(qs, s)
    ensures r.state.step == s.step && r.state.otherTexts == s.otherTexts
    ensures OnlyKeyChanged(s.answers, r.state.answers, qs[s.step].id)
    ensures r.state.answers[qs[s.step].id] == Str(value)
    ensures r.event == Update(Spread(data, r.state.answers))
  {
    var answers := s.answers[qs[s.step].id := Str(value)];
    UpdateChangesOnlyKey(s.answers, qs[s.step].id, Str(value));
    Reaction(s.(answers := answers), Update(Spread(data, answers)))
  }

  /** `handleNext`: the next question, or on the last one the snapshot
      `{ ...data, ...answers }` for review with the step left alone. */
  function HandleNext(qs: seq<Question>, data: Record, s: State): (r: Reaction)
    requires Valid(qs, s)
    ensures Valid(qs, r.state)
    ensures r.state.answers == s.answers && r.state.otherTexts == s.otherTexts
    ensures s.step < |qs| - 1 ==> r.state.step == s.step + 1 && r.event == Quiet
    ensures s.step == |qs| - 1 ==> r.state == s && r.event == Review(Spread(data, s.answers))
  {
    if s.step < |qs| - 1 then Reaction(s.(step := s.step + 1), Quiet)
    else Reaction(s, Review(Spread(data, s.answers)))
  }

  /** `handleBack`: the previous question, or on the first one a request to
      return to persona selection. */
  function HandleBack(qs: seq<Question>, s: State): (r: Reaction)
    requires Valid(qs, s)
    ensures Valid(qs, r.state)
    ensures r.state.answers == s.answers && r.state.otherTexts == s.otherTexts
    ensures s.step > 0 ==> r.state.step == s.step - 1 && r.event == Quiet
    ensures s.step == 0 ==> r.state == s && r.event == BackToSelection
  {
    if s.step > 0 then Reaction(s.(step := s.step - 1), Quiet)
    else Reaction(s, BackToSelection)
  }

  /** `canProceed` with the source's coercions: the answer is read as
      `answers[id] || default`; a text answer is trimmed, a chips answer is
      asked for its `length` (of the array, or of a stray string), a dropdown
      answer is compared with ''. An array under a text question would make
      `trim` throw; it reads as false here. */
  predicate CanProceed(q: Question, answers: Record)
    ensures CanProceed(q, answers) ==> Truthy(Lookup(answers, q.id))
    ensures CanProceed(q, answers) && q.kind == Text ==> Lookup(answers, q.id).Str?
  {
    var v := Lookup(answers, q.id);
    match q.kind
    case Text => v.Str? && Trim(v.s) != ""
    case Chips => (v.List? && |v.items| > 0) || (v.Str? && |v.s| > 0)
    case Dropdown => (v.Str? && v.s != "") || v.List?
  }

  // ---------------------------------------------------------------------
  // The shape of the answer store
  // ---------------------------------------------------------------------

  /** A live answer: of its question's type, and for a chips question an
      array with at most one "Other" entry. */
  predicate Fits(q: Question, v: Value) {
    Typed(q, v) && (q.kind == Chips ==> CountOther(v.items) <= 1)
  }

  /** A value stored in the record: of a storable type, where review may
      have left a plain string under a chips question, and an array holds
      at most one "Other" entry. */
  predicate StoredFits(q: Question, v: Value) {
    StoredTyped(q, v) && (v.List? ==> CountOther(v.items) <= 1)
  }

  /** `answers` holds exactly one fitting answer per catalog question. */
  predicate AnswersFit(qs: seq<Question>, answers: Record) {
    && answers.Keys == IdSet(qs)
    && forall i :: 0 <= i < |qs| ==> Fits(qs[i], answers[qs[i].id])
  }

  /** Every catalog property present in `data` holds a storable value. */
  predicate DataFits(qs: seq<Question>, data: Record) {
    forall i :: 0 <= i < |qs| && qs[i].id in data ==> StoredFits(qs[i], data[qs[i].id])
  }

  /** `canProceed` is exactly the answerability rule once every answer has
      its question's type, however many "Other" entries a selection holds:
      non-blank text, a non-empty selection, a chosen option. */
  lemma CanProceedIff(qs: seq<Question>, answers: Record, i: nat)
    requires i < |qs| && AnswersTyped(qs, answers)
    ensures qs[i].kind == Text ==> (CanProceed(qs[i], answers) <==> Trim(answers[qs[i].id].s) != "")
    ensures qs[i].kind == Chips ==> (CanProceed(qs[i], answers) <==> answers[qs[i].id].items != [])
    ensures qs[i].kind == Dropdown ==> (CanProceed(qs[i], answers) <==> answers[qs[i].id].s != "")
  {
  }

  /** Mounting on a record of storable values gives a fitting answer store. */
  lemma MountFits(qs: seq<Question>, data: Record)
    requires UniqueIds(qs) && DataFits(qs, data)
    ensures AnswersFit(qs, Mount(qs, data).answers)
  {
    var answers := Mount(qs, data).answers;
    forall i | 0 <= i < |qs| ensures Fits(qs[i], answers[qs[i].id]) {
      var v := Lookup(data, qs[i].id);
      if qs[i].kind == Chips && v.Str? && v.s != "" {
        assert answers[qs[i].id].items == [v.s];
        assert [v.s][1..] == [];
      }
    }
  }

  /** A fitting answer store merged into a record keeps the record storable. */
  lemma SpreadFits(qs: seq<Question>, data: Record, answers: Record)
    requires AnswersFit(qs, answers)
    ensures DataFits(qs, Spread(data, answers))
  {
  }

  /** A live answer's type alone, with no bound on "Other" entries: an
      array for a chips question, a string otherwise. */
  predicate Typed(q: Question, v: Value) {
    if q.kind == Chips then v.List? else v.Str?
  }

  /** A stored value's type alone: review may have left a plain string
      under a chips question. */
  predicate StoredTyped(q: Question, v: Value) {
    if q.kind == Chips then v.Str? || v.List? else v.Str?
  }

  /** `answers` holds exactly one answer of the right type per catalog question. */
  predicate AnswersTyped(qs: seq<Question>, answers: Record) {
    && answers.Keys == IdSet(qs)
    && forall i :: 0 <= i < |qs| ==> Typed(qs[i], answers[qs[i].id])
  }

  /** Every catalog property present in `data` holds a value of a storable type. */
  predicate DataTyped(qs: seq<Question>, data: Record) {
    forall i :: 0 <= i < |qs| && qs[i].id in data ==> StoredTyped(qs[i], data[qs[i].id])
  }

  /** Mounting on a record of storable types gives an answer store of the
      right types: chips answers are arrays, every other answer a string. */
  lemma MountTyped(qs: seq<Question>, data: Record)
    requires UniqueIds(qs) && DataTyped(qs, data)
    ensures AnswersTyped(qs, Mount(qs, data).answers)
  {
  }

  /** A typed answer store merged into a record keeps the record's types. */
  lemma SpreadTyped(qs: seq<Question>, data: Record, answers: Record)
    requires AnswersTyped(qs, answers)
    ensures DataTyped(qs, Spread(data, answers))
  {
  }

  /** Replacing the answer of question `i` alone by a value of its type
      keeps the store typed. */
  lemma UpdateKeepsType(qs: seq<Question>, a: Record, b: Record, i: nat)
    requires UniqueIds(qs) && i < |qs| && AnswersTyped(qs, a)
    requires OnlyKeyChanged(a, b, qs[i].id) && Typed(qs[i], b[qs[i].id])
    ensures AnswersTyped(qs, b)
  {
    IdInIdSet(qs, i);
    forall j | 0 <= j < |qs| ensures Typed(qs[j], b[qs[j].id]) {
      if qs[j].id == qs[i].id {
        assert j == i;
      }
    }
  }

  /** A catalog option the free-text box does not own, unless it is the
      sentinel itself: it is "Other", or it cannot begin with "Other:"
      (it is shorter, or its first or sixth character differs). */
  predicate PlainOption(o: string) {
    o == OtherOption || |o| < |OtherPrefix| || o[0] != 'O' || o[5] != ':'
  }

  predicate OptionsPlain(q: Question) {
    forall j :: 0 <= j < |q.options| ==> PlainOption(q.options[j])
  }

  lemma CreatorOptionsPlain()
    ensures forall k :: 0 <= k < |CreatorQuestions| ==> OptionsPlain(CreatorQuestions[k])
  {
  }

  lemma EntrepreneurOptionsPlain()
    ensures forall k :: 0 <= k < |EntrepreneurQuestions| ==> OptionsPlain(EntrepreneurQuestions[k])
  {
  }

  lemma PlainOptionIsNotOther(o: string)
    requires PlainOption(o) && o != OtherOption
    ensures !IsOtherEntry(o)
  {
  }

  /** No catalog option is an encoded "Other: <text>" entry, and the only
      option the free-text box owns is the "Other" sentinel. */
  lemma CatalogOptionsArePlain(p: Persona, i: nat, o: string)
    requires i < |QuestionsFor(p)| && o in QuestionsFor(p)[i].options && o != OtherOption
    ensures !IsOtherEntry(o)
  {
    CreatorOptionsPlain();
    EntrepreneurOptionsPlain();
    var q := QuestionsFor(p)[i];
    assert OptionsPlain(q);
    var j :| 0 <= j < |q.options| && q.options[j] == o;
    PlainOptionIsNotOther(o);
  }

  /** The chip handler keeps the answer store in shape for any option the
      free-text box does not own, and for the sentinel. */
  lemma ChipToggleKeepsShape(qs: seq<Question>, data: Record, s: State, option: string)
    requires Valid(qs, s) && UniqueIds(qs) && AnswersFit(qs, s.answers) && qs[s.step].kind == Chips
    requires option == OtherOption || !IsOtherEntry(option)
    ensures AnswersFit(qs, HandleChipToggle(qs, data, s, option).state.answers)
  {
    var id := qs[s.step].id;
    IdInIdSet(qs, s.step);
    if option != OtherOption {
      ToggleOptionKeepsOtherCount(SelectionsOf(s.answers, id), option);
    }
    var a := HandleChipToggle(qs, data, s, option).state.answers;
    forall i | 0 <= i < |qs| ensures Fits(qs[i], a[qs[i].id]) {
      if qs[i].id == id {
        assert i == s.step;
      }
    }
  }

  /** The free-text box keeps the answer store in shape. */
  lemma OtherTextChangeKeepsShape(qs: seq<Question>, data: Record, s: State, text: string)
    requires Valid(qs, s) && UniqueIds(qs) && AnswersFit(qs, s.answers) && qs[s.step].kind == Chips
    ensures AnswersFit(qs, HandleOtherTextChange(qs, data, s, text).state.answers)
  {
    var id := qs[s.step].id;
    IdInIdSet(qs, s.step);
    var b := HandleOtherTextChange(qs, data, s, text).state.answers;
    forall i | 0 <= i < |qs| ensures Fits(qs[i], b[qs[i].id]) {
      if qs[i].id == id {
        assert i == s.step;
      }
    }
  }

  /** A typed or chosen single answer keeps the answer store in shape. */
  lemma AnswerKeepsShape(qs: seq<Question>, data: Record, s: State, value: string)
    requires Valid(qs, s) && UniqueIds(qs) && AnswersFit(qs, s.answers) && qs[s.step].kind != Chips
    ensures AnswersFit(qs, HandleAnswer(qs, data, s, value).state.answers)
  {
    var id := qs[s.step].id;
    IdInIdSet(qs, s.step);
    var c := HandleAnswer(qs, data, s, value).state.answers;
    forall i | 0 <= i < |qs| ensures Fits(qs[i], c[qs[i].id]) {
      if qs[i].id == id {
        assert i == s.step;
      }
    }
  }
}
