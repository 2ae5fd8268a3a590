/** The review surface: every answer listed, one of them at a time open in
    an editor whose changes live in an edit buffer until saved. */
module ReviewScreen {

  import opened Wrappers
  import opened Data
  import opened Catalog
  import QF = QuestionFlow

  /** `editingId` and `editedAnswers`. */
  datatype State = State(editing: Option<string>, edited: Record)

  /** What a handler hands to the parent: `onUpdate`, `onComplete`, or nothing. */
  datatype Event = Quiet | Update(data: Record) | Complete(data: Record)

  datatype Reaction = Reaction(state: State, event: Event)

  /** The edit buffer read from the record: one entry per catalog question,
      `data[id] || ''`. */
  function Buffer(qs: seq<Question>, data: Record): (r: Record)
    ensures r.Keys == IdSet(qs)
    ensures UniqueIds(qs) ==>
      forall i :: 0 <= i < |qs| ==> r[qs[i].id] == OrEmpty(Lookup(data, qs[i].id))
  {
    var f := (q: Question) => OrEmpty(Lookup(data, q.id));
    TabulateAll(qs, f);
    Tabulate(qs, f)
  }

  /** A fresh mount: nothing open, the buffer read from `data`. */
  function Mount(qs: seq<Question>, data: Record): (s: State)
    ensures s.editing == None && s.edited.Keys == IdSet(qs)
    ensures UniqueIds(qs) ==>
      forall i :: 0 <= i < |qs| ==> s.edited[qs[i].id] == OrEmpty(Lookup(data, qs[i].id))
  {
    State(None, Buffer(qs, data))
  }

  /** `handleEdit(id)`: `id` becomes the one question open for editing, and
      any other question that was open is closed. */
  function HandleEdit(s: State, id: string): (r: State)
    ensures forall q :: r.editing == Some(q) <==> q == id
    ensures r.edited == s.edited
  {
    s.(editing := Some(id))
  }

  /** The editor's change handlers: the text box and the select write the
      typed or chosen string, and a chip click writes the one option as a
      plain string, replacing whatever the answer was. */
  function SetField(s: State, id: string, value: string): (r: State)
    ensures r.editing == s.editing
    ensures OnlyKeyChanged(s.edited, r.edited, id) && r.edited[id] == Str(value)
  {
    s.(edited := s.edited[id := Str(value)])
  }

  /** `handleSave(id, value)`: the value is stored for `id` alone, the editor
      closes, and `{ ...data, ...buffer }` goes to the parent: buffered ids
      win over the record, every other property of the record stays. */
  function HandleSave(data: Record, s: State, id: string, value: Value): (r: Reaction)
    ensures r.state.editing == None
    ensures OnlyKeyChanged(s.edited, r.state.edited, id) && r.state.edited[id] == value
    ensures r.event.Update?
    ensures r.event.data.Keys == data.Keys + s.edited.Keys + {id}
    ensures r.event.data[id] == value
    ensures forall k :: k in s.edited && k != id ==> r.event.data[k] == s.edited[k]
    ensures forall k :: k in data && k !in s.edited && k != id ==> r.event.data[k] == data[k]
  {
    var edited := s.edited[id := value];
    Reaction(State(None, edited), Update(Spread(data, edited)))
  }

  /** `handleCancel`: the editor closes and every unsaved change, to any
      question, is dropped: the state is that of a fresh mount. */
  function HandleCancel(qs: seq<Question>, data: Record, s: State): (r: State)
    ensures r == Mount(qs, data)
  {
    State(None, Buffer(qs, data))
  }

  /** `handleSubmit`: `{ ...data, ...buffer }` goes to the completion
      handler, unsaved changes included; the screen state is unchanged. */
  function HandleSubmit(data: Record, s: State): (r: Reaction)
    ensures r.state == s
    ensures r.event.Complete?
    ensures r.event.data.Keys == data.Keys + s.edited.Keys
    ensures forall k :: k in s.edited ==> r.event.data[k] == s.edited[k]
    ensures forall k :: k in data && k !in s.edited ==> r.event.data[k] == data[k]
  {
    Reaction(s, Complete(Spread(data, s.edited)))
  }

  /** What submit hands on for a buffer read from the catalog: every
      question id, and the persona tag untouched. */
  lemma SubmitCarriesEverything(qs: seq<Question>, data: Record, s: State)
    requires s.edited.Keys == IdSet(qs) && UserTypeKey in data && UserTypeKey !in IdSet(qs)
    ensures IdSet(qs) <= HandleSubmit(data, s).event.data.Keys
    ensures HandleSubmit(data, s).event.data[UserTypeKey] == data[UserTypeKey]
  {
  }

  /** The buffer holds one storable value per catalog question. */
  predicate BufferFits(qs: seq<Question>, buffer: Record) {
    && buffer.Keys == IdSet(qs)
    && forall i :: 0 <= i < |qs| ==> QF.StoredFits(qs[i], buffer[qs[i].id])
  }

  /** Reading the buffer from a record of storable values gives a fitting buffer. */
  lemma BufferFitsData(qs: seq<Question>, data: Record)
    requires UniqueIds(qs) && QF.DataFits(qs, data)
    ensures BufferFits(qs, Buffer(qs, data))
  {
  }

  /** Merging a fitting buffer into a record keeps the record storable. */
  lemma SpreadBufferFits(qs: seq<Question>, data: Record, buffer: Record)
    requires BufferFits(qs, buffer)
    ensures QF.DataFits(qs, Spread(data, buffer))
  {
  }

  /** The buffer holds one value of a storable type per catalog question,
      with no bound on "Other" entries. */
  predicate BufferTyped(qs: seq<Question>, buffer: Record) {
    && buffer.Keys == IdSet(qs)
    && forall i :: 0 <= i < |qs| ==> QF.StoredTyped(qs[i], buffer[qs[i].id])
  }

  /** Reading the buffer from a record of storable types gives a typed buffer. */
  lemma BufferTypedData(qs: seq<Question>, data: Record)
    requires UniqueIds(qs) && QF.DataTyped(qs, data)
    ensures BufferTyped(qs, Buffer(qs, data))
  {
  }

  /** Merging a typed buffer into a record keeps the record's types. */
  lemma SpreadBufferTyped(qs: seq<Question>, data: Record, buffer: Record)
    requires BufferTyped(qs, buffer)
    ensures QF.DataTyped(qs, Spread(data, buffer))
  {
  }

  /** `OrEmpty` leaves every value of a storable type alone. */
  lemma OrEmptyOfStored(q: Question, v: Value)
    requires QF.StoredTyped(q, v)
    ensures OrEmpty(v) == v
  {
  }

  /** After a save the parent's new record flows back as the `data` prop and
      the screen re-reads its buffer from it; what it reads is exactly the
      buffer just saved, so the re-read loses nothing. */
  lemma ResyncAfterSave(qs: seq<Question>, data: Record, s: State, i: nat)
    requires UniqueIds(qs) && i < |qs| && BufferTyped(qs, s.edited)
    ensures
      var id := qs[i].id;
      var r := HandleSave(data, s, id, OrEmpty(Lookup(s.edited, id)));
      Buffer(qs, r.event.data) == r.state.edited
  {
    var id := qs[i].id;
    IdInIdSet(qs, i);
    var r := HandleSave(data, s, id, OrEmpty(Lookup(s.edited, id)));
    OrEmptyOfStored(qs[i], s.edited[id]);
    assert r.state.edited == s.edited;
    var b := Buffer(qs, r.event.data);
    forall k | k in b ensures b[k] == s.edited[k] {
      var j :| 0 <= j < |qs| && qs[j].id == k;
      OrEmptyOfStored(qs[j], s.edited[k]);
    }
  }

  /** A chip picked in review is saved as a plain string; when the question
      stage is entered again it comes back as a one-element selection. */
  lemma ChipPickRoundTrip(qs: seq<Question>, data: Record, s: State, i: nat, option: string)
    requires UniqueIds(qs) && i < |qs| && qs[i].kind == Chips && option != ""
    ensures
      var id := qs[i].id;
      var s1 := SetField(s, id, option);
      var r := HandleSave(data, s1, id, OrEmpty(Lookup(s1.edited, id)));
      QF.Mount(qs, r.event.data).answers[id] == List([option])
  {
  }
}
