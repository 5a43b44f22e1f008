/** The five record types of the content store, their defaults, derived
    attributes and `Meta.ordering`. Timestamps are opaque integers the
    caller supplies; a larger value is a later instant. */
module Models {
  import opened Values
  import opened Text
  import opened Dates
  import opened Listing

  /** A technology tag. Its name is the key of its table, so no two
      technologies share a name. */
  datatype Technology = Technology(createdAt: int)

  /** A portfolio project, keyed by its title in the store. `technologies`
      holds the names of the linked Technology rows. */
  datatype Project = Project(
    description: string,
    image: Option<string>,
    githubUrl: Option<string>,
    technologies: set<string>,
    featured: bool,
    displayOrder: nat,
    createdAt: int)

  /** A skill shown on the about page, keyed by its name in the store. The
      category is the stored code; the database does not restrict it to the
      declared choices. */
  datatype Skill = Skill(
    category: string,
    icon: string,
    level: nat,
    displayOrder: nat,
    createdAt: int)

  /** A work-experience entry, keyed by its numeric id in the store. */
  datatype Experience = Experience(
    title: string,
    company: string,
    image: Option<string>,
    startDate: Date,
    endDate: Option<Date>,
    description: string,
    displayOrder: nat,
    createdAt: int)

  /** A contact-form submission. */
  datatype ContactMessage = ContactMessage(
    name: string,
    email: string,
    subject: string,
    message: string,
    read: bool,
    createdAt: int)

  // ---------------------------------------------------------------------
  // Skill categories and levels

  /** `Skill.CATEGORY_CHOICES`: (code, label) in declaration order. */
  const CategoryChoices: seq<(string, string)> := [
    ("LANG", "Languages"),
    ("FRAME", "Frameworks"),
    ("AIML", "AI/ML"),
    ("BACK", "Backend/Databases"),
    ("CLOUD", "Cloud/DevOps"),
    ("TOOL", "Developer Tools"),
    ("FUND", "CS Fundamentals"),
    ("OTHER", "Other")
  ]

  const DefaultCategory: string := "OTHER"

  predicate IsCategoryCode(code: string) {
    exists i :: 0 <= i < |CategoryChoices| && CategoryChoices[i].0 == code
  }

  /** A new Skill: category and display order fall back to their declared
      defaults ('OTHER' and 0) when not given. */
  function NewSkill(icon: string, level: nat, category: Option<string>, displayOrder: Option<nat>, now: int): (s: Skill)
    ensures s.category == (if category.Some? then category.value else DefaultCategory)
    ensures s.displayOrder == (if displayOrder.Some? then displayOrder.value else 0)
    ensures s.icon == icon && s.level == level && s.createdAt == now
  {
    Skill(
      if category.Some? then category.value else DefaultCategory,
      icon, level,
      if displayOrder.Some? then displayOrder.value else 0,
      now)
  }

  /** The messages of the level validators `MinValueValidator(0)` and
      `MaxValueValidator(100)`, in declaration order. */
  function LevelErrors(level: int): (errors: seq<string>)
    ensures errors == [] <==> 0 <= level <= 100
    ensures |errors| <= 1
  {
    (if level < 0 then ["Ensure this value is greater than or equal to 0."] else [])
    + (if level > 100 then ["Ensure this value is less than or equal to 100."] else [])
  }

  /** A skill the admin console's validation would accept. */
  predicate ValidSkill(s: Skill) {
    LevelErrors(s.level) == [] && IsCategoryCode(s.category)
  }

  // ---------------------------------------------------------------------
  // Experience: derived attributes

  /** Dates a `DateField` can hold. */
  predicate ValidExperience(e: Experience) {
    Valid(e.startDate) && (e.endDate.Some? ==> Valid(e.endDate.value))
  }

  /** `Experience.is_current`. */
  predicate IsCurrent(e: Experience) {
    e.endDate.None?
  }

  /** `Experience.period`: "March 2021 - June 2023", or
      "March 2021 - Present" for a current position. */
  function Period(e: Experience): (r: string)
    requires ValidExperience(e)
  {
    MonthYear(e.startDate) + " - " + (if e.endDate.Some? then MonthYear(e.endDate.value) else "Present")
  }

  /** Reads a period back as ((month, year), end) where end is `None` for
      "Present". */
  function ParsePeriod(s: string): (r: Option<((int, int), Option<(int, int)>)>)
  {
    match IndexOf(s, '-')
    case None => None
    case Some(i) =>
      if i == 0 || i + 1 >= |s| || s[i - 1] != ' ' || s[i + 1] != ' ' then None
      else
        var rest := s[i + 2..];
        match ParseMonthYear(s[..i - 1])
        case None => None
        case Some(start) =>
          if rest == "Present" then Some((start, None))
          else match ParseMonthYear(rest)
            case None => None
            case Some(end) => Some((start, Some(end)))
  }

  /** The period names the start month and year, and the end month and
      year exactly when there is an end date. */
  lemma PeriodRoundTrip(e: Experience)
    requires ValidExperience(e)
    ensures ParsePeriod(Period(e)) == Some(
      ((e.startDate.month, e.startDate.year),
       if e.endDate.Some? then Some((e.endDate.value.month, e.endDate.value.year)) else None))
  {
    var a := MonthYear(e.startDate);
    var b := if e.endDate.Some? then MonthYear(e.endDate.value) else "Present";
    var s := Period(e);
    assert s == a + " - " + b;
    MonthYearShape(e.startDate);
    var i := |a| + 1;
    assert s[i] == '-';
    assert s[..i] == a + " ";
    assert '-' !in s[..i];
    assert IndexOf(s, '-') == Some(i);
    assert s[..i - 1] == a;
    assert s[i + 2..] == b;
    MonthYearRoundTrip(e.startDate);
    if e.endDate.Some? {
      MonthYearShape(e.endDate.value);
      assert b != "Present";
      MonthYearRoundTrip(e.endDate.value);
    }
  }

  /** The period ends in "Present" exactly for a current position. */
  lemma PeriodPresentIffCurrent(e: Experience)
    requires ValidExperience(e)
    ensures EndsWith(Period(e), "Present") <==> IsCurrent(e)
  {
    var s := Period(e);
    if e.endDate.Some? {
      MonthYearShape(e.endDate.value);
      assert s[|s| - 1] == MonthYear(e.endDate.value)[|MonthYear(e.endDate.value)| - 1];
      assert "Present"[6] == 't';
    } else {
      assert s[|s| - 7..] == "Present";
    }
  }

  // ---------------------------------------------------------------------
  // ContactMessage

  /** `ContactMessage.objects.create(...)`: a message starts unread. */
  function NewContactMessage(name: string, email: string, subject: string, message: string, now: int): (m: ContactMessage)
    ensures !m.read
    ensures m.name == name && m.email == email && m.subject == subject && m.message == message
    ensures m.createdAt == now
  {
    ContactMessage(name, email, subject, message, false, now)
  }

  /** `ContactMessage.mark_as_read`: sets the flag and writes only it. */
  function MarkAsRead(m: ContactMessage): (r: ContactMessage)
    ensures r.read
    ensures r.name == m.name && r.email == m.email && r.subject == m.subject
    ensures r.message == m.message && r.createdAt == m.createdAt
  {
    m.(read := true)
  }

  /** Marking as read differs from the message only in the flag, and doing
      it again changes nothing. */
  lemma MarkAsReadIdempotent(m: ContactMessage)
    ensures MarkAsRead(m).read && MarkAsRead(m).(read := m.read) == m
    ensures MarkAsRead(MarkAsRead(m)) == MarkAsRead(m)
    ensures m.read ==> MarkAsRead(m) == m
  {
  }

  // ---------------------------------------------------------------------
  // Meta.ordering. Rows are (key, record) pairs. Where the declared ordering
  // can tie, the key breaks the tie so that each listing is determined.

  /** Experience: `['display_order', '-start_date']`, then id. */
  predicate ExperienceBefore(a: (nat, Experience), b: (nat, Experience)) {
    || a.1.displayOrder < b.1.displayOrder
    || (a.1.displayOrder == b.1.displayOrder && Before(b.1.startDate, a.1.startDate))
    || (a.1.displayOrder == b.1.displayOrder && a.1.startDate == b.1.startDate && a.0 < b.0)
  }

  /** Project: `['display_order', '-created_at']`, then title. */
  predicate ProjectBefore(a: (string, Project), b: (string, Project)) {
    || a.1.displayOrder < b.1.displayOrder
    || (a.1.displayOrder == b.1.displayOrder && a.1.createdAt > b.1.createdAt)
    || (a.1.displayOrder == b.1.displayOrder && a.1.createdAt == b.1.createdAt && StrLt(a.0, b.0))
  }

  /** Skill: `['category', 'display_order', 'name']` — the category CODE
      sorts as a string, not in declaration order. */
  predicate SkillBefore(a: (string, Skill), b: (string, Skill)) {
    || StrLt(a.1.category, b.1.category)
    || (a.1.category == b.1.category && a.1.displayOrder < b.1.displayOrder)
    || (a.1.category == b.1.category && a.1.displayOrder == b.1.displayOrder && StrLt(a.0, b.0))
  }

  /** Technology: `['name']`. */
  predicate TechnologyBefore(a: (string, Technology), b: (string, Technology)) {
    StrLt(a.0, b.0)
  }

  lemma ExperienceOrderIsStrictTotal(m: map<nat, Experience>)
    ensures StrictTotalOn(m.Items, ExperienceBefore)
  {
    forall x, y | x in m.Items && y in m.Items && x != y
      ensures ExperienceBefore(x, y) || ExperienceBefore(y, x)
    {
      BeforeIsStrictTotal(x.1.startDate, y.1.startDate, x.1.startDate);
    }
    forall x, y, z | ExperienceBefore(x, y) && ExperienceBefore(y, z)
      ensures ExperienceBefore(x, z)
    {
      BeforeIsStrictTotal(z.1.startDate, y.1.startDate, x.1.startDate);
    }
  }

  lemma ProjectOrderIsStrictTotal(m: map<string, Project>)
    ensures StrictTotalOn(m.Items, ProjectBefore)
  {
    forall x | x in m.Items
      ensures !ProjectBefore(x, x)
    {
      StrLtIrreflexive(x.0);
    }
    forall x, y, z | ProjectBefore(x, y) && ProjectBefore(y, z)
      ensures ProjectBefore(x, z)
    {
      if StrLt(x.0, y.0) && StrLt(y.0, z.0) {
        StrLtTransitive(x.0, y.0, z.0);
      }
    }
    forall x, y | x in m.Items && y in m.Items && x != y
      ensures ProjectBefore(x, y) || ProjectBefore(y, x)
    {
      if x.0 != y.0 {
        StrLtConnected(x.0, y.0);
      }
    }
  }

  lemma SkillOrderIsStrictTotal(m: map<string, Skill>)
    ensures StrictTotalOn(m.Items, SkillBefore)
  {
    forall x | x in m.Items
      ensures !SkillBefore(x, x)
    {
      StrLtIrreflexive(x.0);
      StrLtIrreflexive(x.1.category);
    }
    forall x, y, z | SkillBefore(x, y) && SkillBefore(y, z)
      ensures SkillBefore(x, z)
    {
      if StrLt(x.1.category, y.1.category) && StrLt(y.1.category, z.1.category) {
        StrLtTransitive(x.1.category, y.1.category, z.1.category);
      }
      if StrLt(x.0, y.0) && StrLt(y.0, z.0) {
        StrLtTransitive(x.0, y.0, z.0);
      }
    }
    forall x, y | x in m.Items && y in m.Items && x != y
      ensures SkillBefore(x, y) || SkillBefore(y, x)
    {
      if x.1.category != y.1.category {
        StrLtConnected(x.1.category, y.1.category);
      }
      if x.0 != y.0 {
        StrLtConnected(x.0, y.0);
      }
    }
  }

  lemma TechnologyOrderIsStrictTotal(m: map<string, Technology>)
    ensures StrictTotalOn(m.Items, TechnologyBefore)
  {
    forall x | x in m.Items
      ensures !TechnologyBefore(x, x)
    {
      StrLtIrreflexive(x.0);
    }
    forall x, y, z | TechnologyBefore(x, y) && TechnologyBefore(y, z)
      ensures TechnologyBefore(x, z)
    {
      StrLtTransitive(x.0, y.0, z.0);
    }
    forall x, y | x in m.Items && y in m.Items && x != y
      ensures TechnologyBefore(x, y) || TechnologyBefore(y, x)
    {
      StrLtConnected(x.0, y.0);
    }
  }

  /** `Experience.objects.all()`. */
  function ExperienceListing(m: map<nat, Experience>): (s: seq<(nat, Experience)>)
    ensures ListsInOrder(s, m.Items, ExperienceBefore)
  {
    ExperienceOrderIsStrictTotal(m);
    SortedSeq(m.Items, ExperienceBefore)
  }

  /** `Project.objects.all()`. */
  function ProjectListing(m: map<string, Project>): (s: seq<(string, Project)>)
    ensures ListsInOrder(s, m.Items, ProjectBefore)
  {
    ProjectOrderIsStrictTotal(m);
    SortedSeq(m.Items, ProjectBefore)
  }

  /** `Skill.objects.all()`. */
  function SkillListing(m: map<string, Skill>): (s: seq<(string, Skill)>)
    ensures ListsInOrder(s, m.Items, SkillBefore)
  {
    SkillOrderIsStrictTotal(m);
    SortedSeq(m.Items, SkillBefore)
  }

  /** The category codes in the order the skill listing sorts them. */
  const CodesAlphabetically: seq<string> := ["AIML", "BACK", "CLOUD", "FRAME", "FUND", "LANG", "OTHER", "TOOL"]

  /** Adjacent codes of `CodesAlphabetically` are in string order. */
  lemma CodesAdjacentOrdered()
    ensures forall i :: 0 <= i < |CodesAlphabetically| - 1 ==> StrLt(CodesAlphabetically[i], CodesAlphabetically[i + 1])
  {
    var c := CodesAlphabetically;
    assert StrLt(c[0], c[1]) && StrLt(c[1], c[2]) && StrLt(c[2], c[3]);
    assert StrLt("RAME", "UND");
    assert StrLt(c[3], c[4]);
    assert StrLt(c[4], c[5]) && StrLt(c[5], c[6]) && StrLt(c[6], c[7]);
  }

  /** `CodesAlphabetically` lists exactly the declared codes. */
  lemma CodesAlphabeticallyAreTheCodes()
    ensures forall c :: c in CodesAlphabetically <==> IsCategoryCode(c)
  {
    var c := CodesAlphabetically;
    assert IsCategoryCode(c[0]) by { assert CategoryChoices[2].0 == c[0]; }
    assert IsCategoryCode(c[1]) by { assert CategoryChoices[3].0 == c[1]; }
    assert IsCategoryCode(c[2]) by { assert CategoryChoices[4].0 == c[2]; }
    assert IsCategoryCode(c[3]) by { assert CategoryChoices[1].0 == c[3]; }
    assert IsCategoryCode(c[4]) by { assert CategoryChoices[6].0 == c[4]; }
    assert IsCategoryCode(c[5]) by { assert CategoryChoices[0].0 == c[5]; }
    assert IsCategoryCode(c[6]) by { assert CategoryChoices[7].0 == c[6]; }
    assert IsCategoryCode(c[7]) by { assert CategoryChoices[5].0 == c[7]; }
  }

  /** The skill listing sorts category codes alphabetically, which is not
      the declared order: AI/ML skills are listed before Languages although
      Languages is declared first. */
  lemma SkillListingOrdersCodesAlphabetically()
    ensures forall i, j :: 0 <= i < j < |CodesAlphabetically| ==> StrLt(CodesAlphabetically[i], CodesAlphabetically[j])
    ensures forall c :: c in CodesAlphabetically <==> IsCategoryCode(c)
    ensures CategoryChoices[0].0 == "LANG" && CategoryChoices[2].0 == "AIML" && StrLt("AIML", "LANG")
  {
    CodesAdjacentOrdered();
    StrLtChain(CodesAlphabetically);
    CodesAlphabeticallyAreTheCodes();
  }
}
