/** The request handlers of the pages app. Each takes the store and a
    request and yields the new store, the request's identity afterwards,
    the response and the flash notices it queued. Whether a request is a
    partial-page (HTMX) fetch only ever picks the template. */
module Views {
  import opened Values
  import opened Text
  import opened Listing
  import opened Models
  import opened Auth
  import opened Forms
  import opened Db

  /** `request.method`. */
  datatype Verb = GET | POST | OtherVerb

  /** What a handler reads from a request: the verb, `request.user`, the
      `HX-Request` header, the query string and the POST body. */
  datatype Request = Request(
    verb: Verb,
    principal: Principal,
    hxRequest: Option<string>,
    query: map<string, string>,
    data: map<string, string>)

  /** `request.headers.get('HX-Request')` is truthy. */
  predicate IsPartial(req: Request) {
    Truthy(req.hxRequest)
  }

  /** The template a handler renders: `pages/home.html`, `pages/about.html`,
      `pages/about_content.html` and so on, one constructor per file. */
  datatype Template =
    | HomeTemplate
    | AboutTemplate | AboutContentTemplate
    | PortfolioTemplate | PortfolioContentTemplate
    | ContactTemplate | ContactContentTemplate | ContactSuccessTemplate
    | AddExperienceTemplate | ExperiencesTemplate | EditExperienceTemplate
    | LoginTemplate

  /** Named routes a handler redirects to, or an explicit URL. */
  datatype Route = HomeRoute | LoginRoute | ExperiencesRoute | UrlRoute(url: string)

  /** The experience form as a page shows it. */
  datatype FormView = BlankForm | InitialForm(instance: Experience) | InvalidForm(submission: Submission, errors: set<Field>)

  /** The dynamic part of a template context (fixed page texts are not
      modelled). */
  datatype Context =
    | StaticContext
    | AboutContext(skills: seq<(string, Skill)>, skillsByCategory: seq<(string, seq<(string, Skill)>)>, experience: seq<(nat, Experience)>)
    | PortfolioContext(projects: seq<(string, Project)>, featuredProject: Option<(string, Project)>)
    | ContactSuccessContext(message: string)
    | ExperienceFormContext(form: FormView, instance: Option<(nat, Experience)>)
    | ExperienceListContext(experiences: seq<(nat, Experience)>, isAdmin: bool)

  datatype Response = Render(template: Template, context: Context) | Redirect(to: Route) | NoContent

  datatype Level = SuccessLevel | WarningLevel | ErrorLevel

  /** A flash message queued with `messages.success/warning/error`. */
  datatype Notice = Notice(level: Level, text: string)

  datatype Outcome = Outcome(store: Store, principal: Principal, response: Response, notices: seq<Notice>)

  /** The template for a page that also has a fragment variant. */
  function Pick(req: Request, full: Template, fragment: Template): (t: Template)
    ensures t == (if IsPartial(req) then fragment else full)
  {
    if IsPartial(req) then fragment else full
  }

  // ---------------------------------------------------------------------
  // Public pages

  function Home(st: Store, req: Request): (r: Outcome)
    ensures r.store == st && r.principal == req.principal && r.notices == []
    ensures r.response == Render(HomeTemplate, StaticContext)
  {
    Outcome(st, req.principal, Render(HomeTemplate, StaticContext), [])
  }

  /** Keeps the skills whose stored category code is `code`. */
  function InCategory(code: string): ((string, Skill)) -> bool {
    (e: (string, Skill)) => e.1.category == code
  }

  /** The grouping loop of the about page: for each (code, caption) choice in
      order, the skills with that code, when there are any. */
  function GroupByCategory(skills: seq<(string, Skill)>, choices: seq<(string, string)>): (groups: seq<(string, seq<(string, Skill)>)>)
    ensures |groups| <= |choices|
    decreases |choices|
  {
    if choices == [] then []
    else
      var members := Filter(skills, InCategory(choices[0].0));
      (if members != [] then [(choices[0].1, members)] else []) + GroupByCategory(skills, choices[1..])
  }

  function Labels<X>(groups: seq<(string, X)>): (labels: seq<string>)
    ensures |labels| == |groups| && forall k :: 0 <= k < |groups| ==> labels[k] == groups[k].0
  {
    seq(|groups|, k requires 0 <= k < |groups| => groups[k].0)
  }

  /** The display labels of the declared (code, caption) choices, in order. */
  function ChoiceLabels(choices: seq<(string, string)>): (labels: seq<string>)
    ensures |labels| == |choices| && forall k :: 0 <= k < |choices| ==> labels[k] == choices[k].1
  {
    seq(|choices|, k requires 0 <= k < |choices| => choices[k].1)
  }

  /** `g` is the group of choice `c`: its caption with the listing's skills
      that have its code, in listing order. */
  ghost predicate IsGroupOf(g: (string, seq<(string, Skill)>), c: (string, string), skills: seq<(string, Skill)>) {
    g == (c.1, Filter(skills, InCategory(c.0)))
  }

  /** Each group is non-empty and is the group of one of the choices. */
  lemma {:induction false} GroupsAreExact(skills: seq<(string, Skill)>, choices: seq<(string, string)>)
    ensures forall k :: 0 <= k < |GroupByCategory(skills, choices)| ==>
        && GroupByCategory(skills, choices)[k].1 != []
        && exists c :: c in choices && IsGroupOf(GroupByCategory(skills, choices)[k], c, skills)
    decreases |choices|
  {
    if choices != [] {
      GroupsAreExact(skills, choices[1..]);
      var groups := GroupByCategory(skills, choices);
      var rest := GroupByCategory(skills, choices[1..]);
      var members := Filter(skills, InCategory(choices[0].0));
      var head := if members != [] then [(choices[0].1, members)] else [];
      assert groups == head + rest;
      forall k | 0 <= k < |groups|
        ensures groups[k].1 != [] && exists c :: c in choices && IsGroupOf(groups[k], c, skills)
      {
        if k < |head| {
          assert IsGroupOf(groups[k], choices[0], skills);
        } else {
          assert groups[k] == rest[k - |head|];
          var c :| c in choices[1..] && IsGroupOf(rest[k - |head|], c, skills);
          assert c in choices;
        }
      }
    }
  }

  /** The labels appear in declaration order. */
  lemma {:induction false} GroupLabelsInDeclaredOrder(skills: seq<(string, Skill)>, choices: seq<(string, string)>)
    ensures IsSubsequence(Labels(GroupByCategory(skills, choices)), ChoiceLabels(choices))
    decreases |choices|
  {
    if choices != [] {
      GroupLabelsInDeclaredOrder(skills, choices[1..]);
      var groups := GroupByCategory(skills, choices);
      var rest := GroupByCategory(skills, choices[1..]);
      assert ChoiceLabels(choices)[1..] == ChoiceLabels(choices[1..]);
      if Filter(skills, InCategory(choices[0].0)) != [] {
        assert groups == [(choices[0].1, Filter(skills, InCategory(choices[0].0)))] + rest;
        assert groups[0].0 == choices[0].1;
        assert Labels(groups)[0] == ChoiceLabels(choices)[0];
        assert Labels(groups)[1..] == Labels(rest);
      } else {
        assert groups == rest;
        SubsequenceOfTail(Labels(rest), ChoiceLabels(choices));
      }
    }
  }

  /** A subsequence of `b`'s tail is a subsequence of `b`. */
  lemma {:induction false} SubsequenceOfTail(a: seq<string>, b: seq<string>)
    requires b != [] && IsSubsequence(a, b[1..])
    ensures IsSubsequence(a, b)
    decreases |b|, |a|
  {
    if a != [] && a[0] == b[0] {
      SubsequenceDropHead(a, b[1..]);
    }
  }

  /** Dropping the first element keeps a subsequence one. */
  lemma {:induction false} SubsequenceDropHead(a: seq<string>, b: seq<string>)
    requires a != [] && IsSubsequence(a, b)
    ensures IsSubsequence(a[1..], b)
    decreases |b|, |a|
  {
    if a[1..] != [] {
      if a[0] != b[0] {
        SubsequenceDropHead(a, b[1..]);
      }
      SubsequenceOfTail(a[1..], b);
    }
  }

  /** Some group on the page carries `caption`. */
  ghost predicate ShowsLabel(groups: seq<(string, seq<(string, Skill)>)>, caption: string) {
    exists k :: 0 <= k < |groups| && groups[k].0 == caption
  }

  /** Some skill of the listing has category `code`. */
  ghost predicate HasSkillIn(skills: seq<(string, Skill)>, code: string) {
    exists e :: e in skills && e.1.category == code
  }

  lemma ShowsLabelConcat(a: seq<(string, seq<(string, Skill)>)>, b: seq<(string, seq<(string, Skill)>)>, caption: string)
    ensures ShowsLabel(a + b, caption) <==> ShowsLabel(a, caption) || ShowsLabel(b, caption)
  {
    if ShowsLabel(a + b, caption) {
      var k :| 0 <= k < |a + b| && (a + b)[k].0 == caption;
      if k >= |a| {
        assert b[k - |a|] == (a + b)[k];
      }
    }
    if ShowsLabel(a, caption) {
      var k :| 0 <= k < |a| && a[k].0 == caption;
      assert (a + b)[k] == a[k];
    }
    if ShowsLabel(b, caption) {
      var k :| 0 <= k < |b| && b[k].0 == caption;
      assert (a + b)[k + |a|] == b[k];
    }
  }

  lemma CategoryMembersNonEmpty(skills: seq<(string, Skill)>, code: string)
    ensures Filter(skills, InCategory(code)) != [] <==> HasSkillIn(skills, code)
  {
    var members := Filter(skills, InCategory(code));
    assert forall x :: x in members <==> x in skills && x.1.category == code;
    if members != [] {
      assert members[0] in members;
    }
    if HasSkillIn(skills, code) {
      var e :| e in skills && e.1.category == code;
      assert e in members;
    }
  }

  /** A caption is shown exactly when some choice with that caption has a skill. */
  lemma {:induction false} GroupLabelShown(skills: seq<(string, Skill)>, choices: seq<(string, string)>, caption: string)
    ensures ShowsLabel(GroupByCategory(skills, choices), caption)
      <==> exists j :: 0 <= j < |choices| && choices[j].1 == caption && HasSkillIn(skills, choices[j].0)
    decreases |choices|
  {
    if choices == [] {
      assert !ShowsLabel([], caption);
    } else {
      GroupLabelShown(skills, choices[1..], caption);
      var members := Filter(skills, InCategory(choices[0].0));
      var head := if members != [] then [(choices[0].1, members)] else [];
      var rest := GroupByCategory(skills, choices[1..]);
      assert GroupByCategory(skills, choices) == head + rest;
      ShowsLabelConcat(head, rest, caption);
      CategoryMembersNonEmpty(skills, choices[0].0);
      assert ShowsLabel(head, caption) <==> choices[0].1 == caption && HasSkillIn(skills, choices[0].0) by {
        if ShowsLabel(head, caption) {
          var k :| 0 <= k < |head| && head[k].0 == caption;
        }
        if choices[0].1 == caption && HasSkillIn(skills, choices[0].0) {
          assert head[0].0 == caption;
        }
      }
      if exists j :: 0 <= j < |choices| && choices[j].1 == caption && HasSkillIn(skills, choices[j].0) {
        var j :| 0 <= j < |choices| && choices[j].1 == caption && HasSkillIn(skills, choices[j].0);
        if j > 0 {
          assert choices[1..][j - 1] == choices[j];
        }
      }
      if exists j :: 0 <= j < |choices[1..]| && choices[1..][j].1 == caption && HasSkillIn(skills, choices[1..][j].0) {
        var j :| 0 <= j < |choices[1..]| && choices[1..][j].1 == caption && HasSkillIn(skills, choices[1..][j].0);
        assert choices[j + 1] == choices[1..][j];
      }
    }
  }

  /** With distinct labels, a category's caption is shown exactly when some
      skill has its code. */
  lemma LabelShownIffSkillInCategory(skills: seq<(string, Skill)>, choices: seq<(string, string)>, i: int)
    requires 0 <= i < |choices|
    requires forall a, b :: 0 <= a < b < |choices| ==> choices[a].1 != choices[b].1
    ensures ShowsLabel(GroupByCategory(skills, choices), choices[i].1) <==> HasSkillIn(skills, choices[i].0)
  {
    GroupLabelShown(skills, choices, choices[i].1);
    if exists j :: 0 <= j < |choices| && choices[j].1 == choices[i].1 && HasSkillIn(skills, choices[j].0) {
      var j :| 0 <= j < |choices| && choices[j].1 == choices[i].1 && HasSkillIn(skills, choices[j].0);
      assert j == i;
    }
  }

  /** `Skill.CATEGORY_CHOICES` has distinct labels. */
  lemma CategoryLabelsDistinct()
    ensures forall a, b :: 0 <= a < b < |CategoryChoices| ==> CategoryChoices[a].1 != CategoryChoices[b].1
  {
  }

  /** A skill whose stored code is not a declared choice is in no group. */
  lemma UndeclaredCodeIsNotShown(skills: seq<(string, Skill)>, e: (string, Skill))
    requires !IsCategoryCode(e.1.category)
    ensures forall k :: 0 <= k < |GroupByCategory(skills, CategoryChoices)| ==> e !in GroupByCategory(skills, CategoryChoices)[k].1
  {
    var groups := GroupByCategory(skills, CategoryChoices);
    GroupsAreExact(skills, CategoryChoices);
    forall k | 0 <= k < |groups|
      ensures e !in groups[k].1
    {
      assert exists c :: c in CategoryChoices && IsGroupOf(groups[k], c, skills);
      var c :| c in CategoryChoices && IsGroupOf(groups[k], c, skills);
      var i :| 0 <= i < |CategoryChoices| && CategoryChoices[i] == c;
      assert c.0 != e.1.category;
    }
  }

  /** `about`: the skill listing grouped by category in declared order, and
      the experience listing. */
  function About(st: Store, req: Request): (r: Outcome)
    ensures r.store == st && r.principal == req.principal && r.notices == []
    ensures r.response.Render? && r.response.template == Pick(req, AboutTemplate, AboutContentTemplate)
    ensures r.response.context.AboutContext?
    ensures ListsInOrder(r.response.context.skills, st.skills.Items, SkillBefore)
    ensures ListsInOrder(r.response.context.experience, st.experiences.Items, ExperienceBefore)
    ensures r.response.context.skillsByCategory == GroupByCategory(r.response.context.skills, CategoryChoices)
  {
    var skills := SkillListing(st.skills);
    var context := AboutContext(skills, GroupByCategory(skills, CategoryChoices), ExperienceListing(st.experiences));
    Outcome(st, req.principal, Render(Pick(req, AboutTemplate, AboutContentTemplate), context), [])
  }

  /** The about page shows a category's heading exactly when some stored
      skill has that category's code. */
  lemma AboutShowsCategoryIffStocked(st: Store, req: Request, i: int)
    requires 0 <= i < |CategoryChoices|
    ensures ShowsLabel(About(st, req).response.context.skillsByCategory, CategoryChoices[i].1)
      <==> exists n :: n in st.skills && st.skills[n].category == CategoryChoices[i].0
  {
    var skills := About(st, req).response.context.skills;
    CategoryLabelsDistinct();
    LabelShownIffSkillInCategory(skills, CategoryChoices, i);
    var code := CategoryChoices[i].0;
    if HasSkillIn(skills, code) {
      var e :| e in skills && e.1.category == code;
      assert e in st.skills.Items;
    }
    if exists n :: n in st.skills && st.skills[n].category == code {
      var n :| n in st.skills && st.skills[n].category == code;
      assert (n, st.skills[n]) in st.skills.Items;
      assert (n, st.skills[n]) in skills;
    }
  }

  function IsFeatured(e: (string, Project)): bool {
    e.1.featured
  }

  /** `portfolio`: the project listing and the first featured project. */
  function Portfolio(st: Store, req: Request): (r: Outcome)
    ensures r.store == st && r.principal == req.principal && r.notices == []
    ensures r.response.Render? && r.response.template == Pick(req, PortfolioTemplate, PortfolioContentTemplate)
    ensures r.response.context.PortfolioContext?
    ensures ListsInOrder(r.response.context.projects, st.projects.Items, ProjectBefore)
  {
    var projects := ProjectListing(st.projects);
    var featured := First(Filter(projects, IsFeatured));
    Outcome(st, req.principal, Render(Pick(req, PortfolioTemplate, PortfolioContentTemplate), PortfolioContext(projects, featured)), [])
  }

  /** The featured project is absent exactly when no project is featured;
      otherwise it is a featured project that the listing order puts
      before every other featured one. */
  lemma FeaturedProjectIsFirstFeatured(st: Store, req: Request)
    ensures var f := Portfolio(st, req).response.context.featuredProject;
      && (f.None? <==> forall t :: t in st.projects ==> !st.projects[t].featured)
      && (f.Some? ==>
            && f.value.0 in st.projects && st.projects[f.value.0] == f.value.1 && f.value.1.featured
            && forall t :: t in st.projects && st.projects[t].featured && t != f.value.0 ==> ProjectBefore(f.value, (t, st.projects[t])))
  {
    var projects := ProjectListing(st.projects);
    FirstOfFilterIsLeast(projects, IsFeatured, ProjectBefore);
    var f := Portfolio(st, req).response.context.featuredProject;
    if f.None? {
      forall t | t in st.projects
        ensures !st.projects[t].featured
      {
        assert (t, st.projects[t]) in st.projects.Items;
        assert (t, st.projects[t]) in projects;
      }
    } else {
      forall t | t in st.projects && st.projects[t].featured && t != f.value.0
        ensures ProjectBefore(f.value, (t, st.projects[t]))
      {
        assert (t, st.projects[t]) in st.projects.Items;
        assert (t, st.projects[t]) in projects;
      }
    }
  }

  /** The home, about and portfolio pages only read: they leave the store,
      the identity and the notices as they were. The home page is the same
      for every visitor and every store. */
  lemma ReadOnlyPagesChangeNothing(st1: Store, st2: Store, req1: Request, req2: Request)
    ensures var outcomes := [Home(st1, req1), About(st1, req1), Portfolio(st1, req1)];
      forall k :: 0 <= k < |outcomes| ==>
        outcomes[k].store == st1 && outcomes[k].principal == req1.principal && outcomes[k].notices == []
    ensures Home(st1, req1).response == Home(st2, req2).response
  {
  }

  /** Some group on the page carries `caption` and lists `e`. */
  ghost predicate ListedUnder(groups: seq<(string, seq<(string, Skill)>)>, caption: string, e: (string, Skill)) {
    exists k :: 0 <= k < |groups| && groups[k].0 == caption && e in groups[k].1
  }

  /** With distinct labels, a listed skill whose code is a declared choice
      is listed under that choice's label. */
  lemma ListedUnderItsLabel(skills: seq<(string, Skill)>, choices: seq<(string, string)>, i: int, e: (string, Skill))
    requires 0 <= i < |choices|
    requires forall a, b :: 0 <= a < b < |choices| ==> choices[a].1 != choices[b].1
    requires e in skills && e.1.category == choices[i].0
    ensures ListedUnder(GroupByCategory(skills, choices), choices[i].1, e)
  {
    var groups := GroupByCategory(skills, choices);
    LabelShownIffSkillInCategory(skills, choices, i);
    var k :| 0 <= k < |groups| && groups[k].0 == choices[i].1;
    GroupsAreExact(skills, choices);
    assert exists c :: c in choices && IsGroupOf(groups[k], c, skills);
    var c :| c in choices && IsGroupOf(groups[k], c, skills);
    var j :| 0 <= j < |choices| && choices[j] == c;
    assert j == i;
    assert e in groups[k].1;
  }

  /** A skill created without a category gets the default code 'OTHER',
      which is a declared choice, so the about page lists it under the
      heading "Other". */
  lemma DefaultSkillIsListedUnderOther(st: Store, req: Request, name: string, icon: string, level: nat, order: Option<nat>, now: int)
    requires level <= 100
    requires name in st.skills && st.skills[name] == NewSkill(icon, level, None, order, now)
    ensures ValidSkill(st.skills[name])
    ensures ListedUnder(About(st, req).response.context.skillsByCategory, "Other", (name, st.skills[name]))
  {
    assert CategoryChoices[7] == ("OTHER", "Other");
    assert IsCategoryCode(st.skills[name].category);
    var skills := About(st, req).response.context.skills;
    assert (name, st.skills[name]) in st.skills.Items;
    CategoryLabelsDistinct();
    ListedUnderItsLabel(skills, CategoryChoices, 7, (name, st.skills[name]));
  }

  /** The flash text and fragment message of a contact submission. */
  function ThankYou(name: Option<string>): string {
    "Thank you " + Show(name) + "! Your message has been sent successfully."
  }

  /** All four contact fields are truthy. */
  predicate ContactComplete(data: map<string, string>) {
    Truthy(Get(data, "name")) && Truthy(Get(data, "email")) && Truthy(Get(data, "subject")) && Truthy(Get(data, "message"))
  }

  /** `contact`. A POST stores a message only when all four fields are
      given; either way it thanks the sender, as a fragment for a partial
      fetch and as a flash notice over the full page otherwise. */
  function Contact(st: Store, req: Request, now: int): (r: Outcome)
    ensures r.principal == req.principal
    ensures r.store.(messages := st.messages) == st
    ensures req.verb == POST && ContactComplete(req.data) ==>
      r.store.messages == st.messages + [NewContactMessage(req.data["name"], req.data["email"], req.data["subject"], req.data["message"], now)]
    ensures !(req.verb == POST && ContactComplete(req.data)) ==> r.store == st
    ensures req.verb != POST ==> r.notices == [] && r.response == Render(Pick(req, ContactTemplate, ContactContentTemplate), StaticContext)
    ensures req.verb == POST && IsPartial(req) ==>
      r.response == Render(ContactSuccessTemplate, ContactSuccessContext(ThankYou(Get(req.data, "name")))) && r.notices == []
    ensures req.verb == POST && !IsPartial(req) ==>
      r.response == Render(ContactTemplate, StaticContext) && r.notices == [Notice(SuccessLevel, ThankYou(Get(req.data, "name")))]
  {
    if req.verb == POST then
      var name := Get(req.data, "name");
      var email := Get(req.data, "email");
      var subject := Get(req.data, "subject");
      var message := Get(req.data, "message");
      var st' :=
        if Truthy(name) && Truthy(email) && Truthy(subject) && Truthy(message)
        then st.(messages := st.messages + [NewContactMessage(name.value, email.value, subject.value, message.value, now)])
        else st;
      if IsPartial(req) then
        Outcome(st', req.principal, Render(ContactSuccessTemplate, ContactSuccessContext(ThankYou(name))), [])
      else
        Outcome(st', req.principal, Render(ContactTemplate, StaticContext), [Notice(SuccessLevel, ThankYou(name))])
    else
      Outcome(st, req.principal, Render(Pick(req, ContactTemplate, ContactContentTemplate), StaticContext), [])
  }

  /** A POST gets the same reply whether or not its message was stored: the
      reply depends only on the submitted name and the partial-fetch flag. */
  lemma ContactReplyIgnoresSaving(st1: Store, st2: Store, req1: Request, req2: Request, now1: int, now2: int)
    requires req1.verb == POST && req2.verb == POST
    requires IsPartial(req1) == IsPartial(req2)
    requires Get(req1.data, "name") == Get(req2.data, "name")
    ensures Contact(st1, req1, now1).response == Contact(st2, req2, now2).response
    ensures Contact(st1, req1, now1).notices == Contact(st2, req2, now2).notices
  {
  }

  /** A POST thanks the sender by the submitted name, or as "None" when no
      name was posted, in which case nothing is stored. */
  lemma ContactThanksByName(st: Store, req: Request, now: int)
    requires req.verb == POST
    ensures var text := "Thank you " + (if "name" in req.data then req.data["name"] else "None") + "! Your message has been sent successfully.";
      && (IsPartial(req) ==> Contact(st, req, now).response.context == ContactSuccessContext(text))
      && (!IsPartial(req) ==> Contact(st, req, now).notices == [Notice(SuccessLevel, text)])
    ensures "name" !in req.data ==> Contact(st, req, now).store == st
  {
  }

  /** A complete POST adds exactly one message, unread and holding the four
      submitted values; anything else adds none. */
  lemma ContactAddsAtMostOne(st: Store, req: Request, now: int)
    ensures var r := Contact(st, req, now);
      && |r.store.messages| == |st.messages| + (if req.verb == POST && ContactComplete(req.data) then 1 else 0)
      && r.store.messages[..|st.messages|] == st.messages
      && (|r.store.messages| > |st.messages| ==>
            var m := r.store.messages[|st.messages|];
            !m.read && m.name == req.data["name"] && m.email == req.data["email"]
            && m.subject == req.data["subject"] && m.message == req.data["message"])
  {
  }

  /** The partial-fetch header picks the about template and nothing else:
      store, identity, notices and context are the same either way. */
  lemma AboutPartialOnlyPicksTemplate(st: Store, req: Request)
    ensures var full, part := req.(hxRequest := None), req.(hxRequest := Some("true"));
      && About(st, full).(response := NoContent) == About(st, part).(response := NoContent)
      && About(st, full).response.context == About(st, part).response.context
      && About(st, full).response.template == AboutTemplate
      && About(st, part).response.template == AboutContentTemplate
  {
  }

  /** The same for `portfolio`. */
  lemma PortfolioPartialOnlyPicksTemplate(st: Store, req: Request)
    ensures var full, part := req.(hxRequest := None), req.(hxRequest := Some("true"));
      && Portfolio(st, full).(response := NoContent) == Portfolio(st, part).(response := NoContent)
      && Portfolio(st, full).response.context == Portfolio(st, part).response.context
      && Portfolio(st, full).response.template == PortfolioTemplate
      && Portfolio(st, part).response.template == PortfolioContentTemplate
  {
  }

  /** For `contact` the header never changes what is stored, and for a GET
      it changes only the template. */
  lemma ContactPartialOnlyPicksTemplate(st: Store, req: Request, now: int)
    ensures var full, part := req.(hxRequest := None), req.(hxRequest := Some("true"));
      && Contact(st, full, now).store == Contact(st, part, now).store
      && (req.verb != POST ==>
            && Contact(st, full, now) == Contact(st, part, now).(response := Render(ContactTemplate, StaticContext))
            && Contact(st, part, now).response == Render(ContactContentTemplate, StaticContext))
  {
  }

  // ---------------------------------------------------------------------
  // Admin-only experience pages

  function Turnaway(st: Store, req: Request, text: string): Outcome {
    Outcome(st, req.principal, Redirect(LoginRoute), [Notice(WarningLevel, text)])
  }

  function Describe(e: Experience): string {
    e.title + " at " + e.company
  }

  /** `add_experience`. */
  function AddExperience(st: Store, req: Request, sub: Submission, now: int): (r: Outcome)
    ensures r.principal == req.principal
    ensures !IsAdmin(req.principal) || req.verb != POST || !IsValid(sub) ==> r.store == st
    ensures IsAdmin(req.principal) && req.verb == POST && IsValid(sub) ==>
      && r.store == st.(experiences := st.experiences[st.nextExperienceId := Apply(sub, NewExperienceBase(now))],
                        nextExperienceId := st.nextExperienceId + 1)
      && r.response == Redirect(ExperiencesRoute)
    ensures IsAdmin(req.principal) && req.verb == POST && !IsValid(sub) ==>
      r.response == Render(AddExperienceTemplate, ExperienceFormContext(InvalidForm(sub, Errors(sub)), None))
  {
    if !IsAdmin(req.principal) then Turnaway(st, req, "You must be logged in as admin to add experiences.")
    else if req.verb == POST && IsValid(sub) then
      var e := Apply(sub, NewExperienceBase(now));
      var st' := st.(experiences := st.experiences[st.nextExperienceId := e], nextExperienceId := st.nextExperienceId + 1);
      Outcome(st', req.principal, Redirect(ExperiencesRoute), [Notice(SuccessLevel, "Experience \"" + Describe(e) + "\" added successfully!")])
    else if req.verb == POST then
      Outcome(st, req.principal, Render(AddExperienceTemplate, ExperienceFormContext(InvalidForm(sub, Errors(sub)), None)), [])
    else
      Outcome(st, req.principal, Render(AddExperienceTemplate, ExperienceFormContext(BlankForm, None)), [])
  }

  /** `experiences`: the listing for an admin. */
  function ExperienceList(st: Store, req: Request): (r: Outcome)
    ensures r.store == st && r.principal == req.principal
    ensures IsAdmin(req.principal) ==>
      && r.notices == []
      && r.response.Render? && r.response.template == ExperiencesTemplate
      && r.response.context.ExperienceListContext? && r.response.context.isAdmin
      && ListsInOrder(r.response.context.experiences, st.experiences.Items, ExperienceBefore)
  {
    if !IsAdmin(req.principal) then Turnaway(st, req, "You must be logged in as admin to edit experiences.")
    else Outcome(st, req.principal, Render(ExperiencesTemplate, ExperienceListContext(ExperienceListing(st.experiences), IsAdmin(req.principal))), [])
  }

  /** `edit_experience`. */
  function EditExperience(st: Store, req: Request, id: nat, sub: Submission, now: int): (r: Outcome)
    ensures r.principal == req.principal
    ensures !IsAdmin(req.principal) || id !in st.experiences || req.verb != POST || !IsValid(sub) ==> r.store == st
    ensures IsAdmin(req.principal) && id !in st.experiences ==>
      r.response == Redirect(ExperiencesRoute) && r.notices == [Notice(ErrorLevel, "Experience not found.")]
    ensures IsAdmin(req.principal) && id in st.experiences && req.verb == POST && IsValid(sub) ==>
      && r.store == st.(experiences := st.experiences[id := Apply(sub, st.experiences[id])])
      && r.response == Redirect(ExperiencesRoute)
    ensures IsAdmin(req.principal) && id in st.experiences && req.verb == POST && !IsValid(sub) ==>
      && r.notices == []
      && r.response == Render(EditExperienceTemplate, ExperienceFormContext(InvalidForm(sub, Errors(sub)), Some((id, Construct(sub, st.experiences[id])))))
    ensures IsAdmin(req.principal) && id in st.experiences && req.verb != POST ==>
      && r.notices == []
      && r.response == Render(EditExperienceTemplate, ExperienceFormContext(InitialForm(st.experiences[id]), Some((id, st.experiences[id]))))
  {
    if !IsAdmin(req.principal) then Turnaway(st, req, "You must be logged in as admin to edit experiences.")
    else if id !in st.experiences then
      Outcome(st, req.principal, Redirect(ExperiencesRoute), [Notice(ErrorLevel, "Experience not found.")])
    else
      var current := st.experiences[id];
      if req.verb == POST && IsValid(sub) then
        var e := Apply(sub, current);
        Outcome(st.(experiences := st.experiences[id := e]), req.principal, Redirect(ExperiencesRoute),
                [Notice(SuccessLevel, "Experience \"" + Describe(e) + "\" updated successfully!")])
      else if req.verb == POST then
        Outcome(st, req.principal, Render(EditExperienceTemplate, ExperienceFormContext(InvalidForm(sub, Errors(sub)), Some((id, Construct(sub, current))))), [])
      else
        Outcome(st, req.principal, Render(EditExperienceTemplate, ExperienceFormContext(InitialForm(current), Some((id, current)))), [])
  }

  /** An invalid edit changes nothing stored and re-renders the form with
      its errors. The instance it shows takes every submitted field that
      passed the form field's checks and keeps the stored value of each one
      that failed them. It fails a check only when an over-range display
      order was written onto it, and that is also the only way it can hold
      the whole submission. */
  lemma InvalidEditShowsPassingFields(st: Store, req: Request, id: nat, sub: Submission, now: int)
    requires IsAdmin(req.principal) && id in st.experiences && req.verb == POST && !IsValid(sub)
    requires Acceptable(st.experiences[id])
    ensures var r := EditExperience(st, req, id, sub, now);
      && r.store == st
      && r.response.Render? && r.response.context.ExperienceFormContext?
      && r.response.context.form == InvalidForm(sub, Errors(sub)) && Errors(sub) != {}
      && r.response.context.instance.Some? && r.response.context.instance.value.0 == id
      && (Acceptable(r.response.context.instance.value.1) <==> !OrderOutOfRange(sub))
      && (Records(r.response.context.instance.value.1, sub) ==> OrderOutOfRange(sub))
  {
    ConstructKeepsFailedFields(sub, st.experiences[id]);
  }

  /** `delete_experience`, whatever the verb. */
  function DeleteExperience(st: Store, req: Request, id: nat): (r: Outcome)
    ensures r.principal == req.principal
    ensures !IsAdmin(req.principal) || id !in st.experiences ==> r.store == st
    ensures IsAdmin(req.principal) ==> r.response == Redirect(ExperiencesRoute) && |r.notices| == 1
    ensures IsAdmin(req.principal) && id !in st.experiences ==> r.notices == [Notice(ErrorLevel, "Experience not found.")]
    ensures IsAdmin(req.principal) && id in st.experiences ==>
      && r.store == st.(experiences := r.store.experiences)
      && r.store.experiences.Keys == st.experiences.Keys - {id}
      && (forall k :: k in r.store.experiences ==> r.store.experiences[k] == st.experiences[k])
      && r.notices == [Notice(SuccessLevel, "Experience \"" + Describe(st.experiences[id]) + "\" deleted successfully!")]
  {
    if !IsAdmin(req.principal) then Turnaway(st, req, "You must be logged in as admin to delete experiences.")
    else if id in st.experiences then
      var title := Describe(st.experiences[id]);
      Outcome(st.(experiences := st.experiences - {id}), req.principal, Redirect(ExperiencesRoute),
              [Notice(SuccessLevel, "Experience \"" + title + "\" deleted successfully!")])
    else
      Outcome(st, req.principal, Redirect(ExperiencesRoute), [Notice(ErrorLevel, "Experience not found.")])
  }

  /** Anyone who is not an admin — anonymous, the guest, or a signed-in
      account without staff or superuser rights — is sent to the login page
      with one warning, whatever they submit, and the store is unchanged. */
  lemma NonAdminIsTurnedAway(st: Store, req: Request, id: nat, sub: Submission, now: int)
    requires !IsAdmin(req.principal)
    ensures var outcomes := [AddExperience(st, req, sub, now), ExperienceList(st, req), EditExperience(st, req, id, sub, now), DeleteExperience(st, req, id)];
      forall k :: 0 <= k < |outcomes| ==>
        && outcomes[k].store == st && outcomes[k].principal == req.principal
        && outcomes[k].response == Redirect(LoginRoute)
        && |outcomes[k].notices| == 1 && outcomes[k].notices[0].level == WarningLevel
  {
  }

  /** The admin handlers keep the store's invariants. */
  lemma AddExperiencePreservesWellFormed(st: Store, req: Request, sub: Submission, now: int)
    requires WellFormed(st)
    ensures WellFormed(AddExperience(st, req, sub, now).store)
  {
  }

  lemma EditExperiencePreservesWellFormed(st: Store, req: Request, id: nat, sub: Submission, now: int)
    requires WellFormed(st)
    ensures WellFormed(EditExperience(st, req, id, sub, now).store)
  {
  }

  lemma DeleteExperiencePreservesWellFormed(st: Store, req: Request, id: nat)
    requires WellFormed(st)
    ensures WellFormed(DeleteExperience(st, req, id).store)
  {
  }

  /** Deleting the row an admin just added restores the table; only the
      auto-increment counter has moved on. */
  lemma DeleteUndoesAdd(st: Store, req: Request, sub: Submission, now: int)
    requires WellFormed(st)
    requires IsAdmin(req.principal) && req.verb == POST && IsValid(sub)
    ensures var added := AddExperience(st, req, sub, now).store;
      var restored := DeleteExperience(added, req, st.nextExperienceId).store;
      && restored.experiences == st.experiences
      && restored.nextExperienceId == st.nextExperienceId + 1
  {
    var id := st.nextExperienceId;
    var e := Apply(sub, NewExperienceBase(now));
    var added := AddExperience(st, req, sub, now).store;
    assert added.experiences == st.experiences[id := e];
    assert id !in st.experiences;
    RemoveUndoesInsert(st.experiences, id, e);
    assert id in added.experiences;
  }

  /** Removing a key just inserted into a map that lacked it gives the map back. */
  lemma RemoveUndoesInsert<K, V>(m: map<K, V>, k: K, v: V)
    requires k !in m
    ensures m[k := v] - {k} == m
  {
    assert (m[k := v] - {k}).Keys == m.Keys;
  }

  /** Submitting the same valid edit twice leaves the store as one
      submission did. */
  lemma EditIsIdempotent(st: Store, req: Request, id: nat, sub: Submission, now: int, later: int)
    ensures var once := EditExperience(st, req, id, sub, now).store;
      EditExperience(once, req, id, sub, later).store == once
  {
    var once := EditExperience(st, req, id, sub, now).store;
    if IsAdmin(req.principal) && id in st.experiences && req.verb == POST && IsValid(sub) {
      ReapplyKeepsTable(st.experiences, id, sub);
      assert once.experiences[id := Apply(sub, once.experiences[id])] == once.experiences;
    } else {
      assert once == st;
    }
  }

  /** Saving a submission onto the row it was just saved onto leaves the
      table as it was. */
  lemma ReapplyKeepsTable(m: map<nat, Experience>, id: nat, sub: Submission)
    requires IsValid(sub) && id in m
    ensures var once := m[id := Apply(sub, m[id])];
      once[id := Apply(sub, once[id])] == once
  {
    ApplyIdempotent(sub, m[id]);
  }

  // ---------------------------------------------------------------------
  // Session pages

  /** `login_view`. `accepted` is the account the credential check accepts
      for the submitted form, if any. */
  function LoginView(st: Store, req: Request, accepted: Option<User>): (r: Outcome)
    ensures r.store == st
    ensures IsAdmin(req.principal) ==> r.principal == req.principal && r.response == Redirect(HomeRoute) && r.notices == []
    ensures !IsAdmin(req.principal) && req.verb == POST && accepted.Some? ==>
      && r.principal == Authenticated(accepted.value)
      && r.response == Redirect(if Truthy(Get(req.query, "next")) then UrlRoute(req.query["next"]) else HomeRoute)
    ensures r.principal != req.principal ==> !IsAdmin(req.principal) && req.verb == POST && accepted.Some?
  {
    if IsAdmin(req.principal) then Outcome(st, req.principal, Redirect(HomeRoute), [])
    else if req.verb == POST && accepted.Some? then
      var next := Get(req.query, "next");
      Outcome(st, Authenticated(accepted.value),
              Redirect(if Truthy(next) then UrlRoute(next.value) else HomeRoute),
              [Notice(SuccessLevel, "Welcome back, " + accepted.value.username + "!")])
    else
      Outcome(st, req.principal, Render(LoginTemplate, StaticContext), [])
  }

  /** `logout_view`, behind `login_required`; an anonymous request is sent
      to the login page. */
  function LogoutView(st: Store, req: Request): (r: Outcome)
    ensures r.store == st && r.principal == Anonymous
    ensures req.principal.Authenticated? ==> r.response == Redirect(HomeRoute) && |r.notices| == 1
    ensures req.principal.Anonymous? ==> r.response == Redirect(LoginRoute) && r.notices == []
  {
    if req.principal.Anonymous? then Outcome(st, Anonymous, Redirect(LoginRoute), [])
    else Outcome(st, Anonymous, Redirect(HomeRoute), [Notice(SuccessLevel, "You have been logged out successfully.")])
  }

  /** `favicon`: 204 No Content. */
  function Favicon(st: Store, req: Request): (r: Outcome)
    ensures r.store == st && r.principal == req.principal && r.response == NoContent && r.notices == []
  {
    Outcome(st, req.principal, NoContent, [])
  }

  /** The favicon reply is 204 whatever the store and the request, and it
      changes nothing. */
  lemma FaviconIgnoresRequest(st1: Store, st2: Store, req1: Request, req2: Request)
    ensures Favicon(st1, req1).response == Favicon(st2, req2).response == NoContent
    ensures Favicon(st1, req1).store == st1 && Favicon(st1, req1).principal == req1.principal
    ensures Favicon(st1, req1).notices == []
  {
  }
}
