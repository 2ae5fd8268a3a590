/** The two static question catalogs and the `Question` type. */
module Catalog {

  import opened Wrappers
  import opened Data

  /** `QuestionType`: free text, a single choice from a list, or chips
      (several choices from a list). */
  datatype Kind = Text | Dropdown | Chips

  /** A question; `options` is empty where the source leaves it undefined. */
  datatype Question = Question(
    id: string,
    prompt: string,
    kind: Kind,
    placeholder: Option<string>,
    options: seq<string>)

  /** The chip option that opens the free-text box. */
  const OtherOption: string := "Other"

  const CreatorQuestions: seq<Question> := [
    Question("channelName", "What is your channel name or brand name?", Text,
      Some("e.g., @YourChannel or YourBrand"), []),
    Question("contentType", "What type of content do you create?", Chips, None,
      ["Tech Reviews", "Vlogs", "Tutorials", "Gaming", "Beauty & Fashion",
       "Fitness & Health", "Education", "Entertainment", "Business & Finance", "Other"]),
    Question("targetAudience", "Who is your target audience?", Chips, None,
      ["Young Professionals", "Students", "Entrepreneurs", "Parents", "Teenagers",
       "Seniors", "General Audience", "Other"]),
    Question("goals", "What are your main goals as a creator?", Chips, None,
      ["Grow Subscribers", "Monetize Content", "Build Community", "Increase Engagement",
       "Brand Partnerships", "Create Products", "Full-time Career", "Other"]),
    Question("platform", "What platforms do you primarily use?", Chips, None,
      ["YouTube", "TikTok", "Instagram", "Twitch", "Twitter/X", "LinkedIn", "Facebook", "Other"]),
    Question("currentSize", "What is your current audience size?", Dropdown, None,
      ["Just starting (0-100)", "Small (100-1K)", "Growing (1K-10K)",
       "Established (10K-100K)", "Large (100K-1M)", "Very Large (1M+)"]),
    Question("monetization", "How do you plan to monetize?", Chips, None,
      ["Sponsorships", "Affiliate Marketing", "Products/Merch", "Courses", "Consulting",
       "Memberships", "Donations", "Other"])
  ]

  const EntrepreneurQuestions: seq<Question> := [
    Question("businessName", "What is your business name?", Text,
      Some("e.g., TechStart Inc."), []),
    Question("industry", "What industry are you in?", Dropdown, None,
      ["SaaS", "E-commerce", "Consulting", "Healthcare", "Finance", "Education",
       "Real Estate", "Food & Beverage", "Technology", "Marketing", "Other"]),
    Question("businessStage", "What stage is your business at?", Dropdown, None,
      ["Idea/Planning", "MVP Development", "Early Stage", "Growth Stage", "Established", "Scaling"]),
    Question("revenueGoal", "What is your revenue goal for this year?", Dropdown, None,
      ["Under $10K", "$10K - $50K", "$50K - $100K", "$100K - $500K", "$500K - $1M", "$1M+"]),
    Question("targetMarket", "Who is your target market?", Chips, None,
      ["Small Businesses", "Enterprise", "Consumers", "B2B", "B2C", "Non-profit",
       "Government", "Other"]),
    Question("teamSize", "What is your current team size?", Dropdown, None,
      ["Solo Founder", "2-5 People", "6-20 People", "21-50 People", "50+ People"]),
    Question("challenges", "What are your biggest challenges right now?", Chips, None,
      ["Customer Acquisition", "Product Development", "Scaling", "Funding", "Team Building",
       "Marketing", "Operations", "Other"])
  ]

  /** `userType === 'creator' ? CREATOR_QUESTIONS : ENTREPRENEUR_QUESTIONS`. */
  function QuestionsFor(p: Persona): seq<Question> {
    if p == Creator then CreatorQuestions else EntrepreneurQuestions
  }

  function IdSet(qs: seq<Question>): set<string> {
    set i | 0 <= i < |qs| :: qs[i].id
  }

  predicate UniqueIds(qs: seq<Question>) {
    forall i, j :: 0 <= i < j < |qs| ==> qs[i].id != qs[j].id
  }

  /** A choice question lists at least one option, a chips question ends
      with the "Other" sentinel, and a text question lists none. */
  predicate WellFormed(q: Question) {
    match q.kind
    case Text => q.options == []
    case Dropdown => q.options != []
    case Chips => q.options != [] && q.options[|q.options| - 1] == OtherOption
  }

  /** `Object.fromEntries(qs.map(q => [q.id, f(q)]))`: one entry per id. */
  function Tabulate<V>(qs: seq<Question>, f: Question -> V): (r: map<string, V>)
    ensures r.Keys == IdSet(qs)
    decreases |qs|
  {
    if qs == [] then map[]
    else
      var n := |qs| - 1;
      IdSetSnoc(qs);
      Tabulate(qs[..n], f)[qs[n].id := f(qs[n])]
  }

  lemma IdSetSnoc(qs: seq<Question>)
    requires qs != []
    ensures IdSet(qs) == IdSet(qs[..|qs| - 1]) + {qs[|qs| - 1].id}
  {
    var n := |qs| - 1;
    forall x | x in IdSet(qs) ensures x in IdSet(qs[..n]) + {qs[n].id} {
      var i :| 0 <= i < |qs| && qs[i].id == x;
      if i < n { assert qs[..n][i].id == x; }
    }
    forall x | x in IdSet(qs[..n]) ensures x in IdSet(qs) {
      var i :| 0 <= i < n && qs[..n][i].id == x;
      assert qs[i].id == x;
    }
  }

  /** Where an id repeats, the later entry overwrites the earlier one: the
      value kept for an id is that of its last question. */
  lemma {:induction false} TabulateLast<V>(qs: seq<Question>, f: Question -> V, i: nat)
    requires i < |qs| && forall j :: i < j < |qs| ==> qs[j].id != qs[i].id
    ensures qs[i].id in Tabulate(qs, f) && Tabulate(qs, f)[qs[i].id] == f(qs[i])
    decreases |qs|
  {
    var n := |qs| - 1;
    if i < n {
      assert qs[..n][i] == qs[i];
      assert forall j :: i < j < n ==> qs[..n][j].id != qs[..n][i].id;
      TabulateLast(qs[..n], f, i);
    }
  }

  /** With unique ids every question's own entry is the one kept. */
  lemma TabulateUnique<V>(qs: seq<Question>, f: Question -> V, i: nat)
    requires UniqueIds(qs) && i < |qs|
    ensures qs[i].id in Tabulate(qs, f) && Tabulate(qs, f)[qs[i].id] == f(qs[i])
  {
    TabulateLast(qs, f, i);
  }

  lemma TabulateAll<V>(qs: seq<Question>, f: Question -> V)
    ensures UniqueIds(qs) ==>
      forall i :: 0 <= i < |qs| ==> Tabulate(qs, f)[qs[i].id] == f(qs[i])
  {
    if UniqueIds(qs) {
      forall i | 0 <= i < |qs| ensures Tabulate(qs, f)[qs[i].id] == f(qs[i]) {
        TabulateUnique(qs, f, i);
      }
    }
  }

  lemma IdInIdSet(qs: seq<Question>, i: nat)
    requires i < |qs|
    ensures qs[i].id in IdSet(qs)
  {
  }

  /** Both catalogs have seven questions. */
  lemma CatalogSizes()
    ensures |CreatorQuestions| == 7 && |EntrepreneurQuestions| == 7
  {
  }

  /** The first two creator questions: the channel name as text, then the
      content type as chips offering "Other". */
  lemma CreatorOpeningQuestions()
    ensures |CreatorQuestions| == 7
    ensures CreatorQuestions[0].kind == Text && CreatorQuestions[0].id == "channelName"
    ensures CreatorQuestions[1].kind == Chips && CreatorQuestions[1].id == "contentType"
    ensures OtherOption in CreatorQuestions[1].options
  {
    assert CreatorQuestions[1].options[9] == OtherOption;
  }

  /** Ids are unique within each catalog. */
  lemma CatalogIdsUnique()
    ensures UniqueIds(CreatorQuestions) && UniqueIds(EntrepreneurQuestions)
  {
    CreatorIdsUnique();
    EntrepreneurIdsUnique();
  }

  lemma CreatorIdsUnique()
    ensures UniqueIds(CreatorQuestions)
  {
  }

  lemma EntrepreneurIdsUnique()
    ensures UniqueIds(EntrepreneurQuestions)
  {
  }

  /** The two catalogs share no id. */
  lemma CatalogsDisjoint()
    ensures IdSet(CreatorQuestions) !! IdSet(EntrepreneurQuestions)
  {
  }

  /** Every question of both catalogs is well formed. */
  lemma CatalogsWellFormed()
    ensures forall i :: 0 <= i < |CreatorQuestions| ==> WellFormed(CreatorQuestions[i])
    ensures forall i :: 0 <= i < |EntrepreneurQuestions| ==> WellFormed(EntrepreneurQuestions[i])
  {
  }

  /** No question id collides with the `userType` property of the record. */
  lemma NoQuestionIsUserType()
    ensures UserTypeKey !in IdSet(CreatorQuestions)
    ensures UserTypeKey !in IdSet(EntrepreneurQuestions)
  {
  }
}
