/** The `seed_skills` management command: upserts a fixed catalogue of
    skills by name, overwriting category, icon, level and display order on
    every run. */
module SeedSkills {
  import opened Values
  import opened Models
  import opened Db

  /** One catalogue row: name, icon, level, display order, category code. */
  datatype Entry = Entry(name: string, icon: string, level: nat, order: nat, category: string)

  // The catalogue, one constant per category block, in the command's order.
  // Icons are the emoji code points the command writes (some carry a U+FE0F
  // variation selector).

  const Languages: seq<Entry> := [
    Entry("Python", "\U{1F40D}", 95, 1, "LANG"),
    Entry("C", "\U{1F1E8}", 80, 2, "LANG"),
    Entry("C++", "\U{2795}", 85, 3, "LANG"),
    Entry("Java", "\U{2615}", 85, 4, "LANG"),
    Entry("Rust", "\U{1F980}", 75, 5, "LANG"),
    Entry("JavaScript", "\U{1F4DC}", 90, 6, "LANG"),
    Entry("HTML/CSS", "\U{1F3A8}", 95, 7, "LANG")
  ]

  const Frameworks: seq<Entry> := [
    Entry("Django", "\U{1F3B8}", 95, 1, "FRAME"),
    Entry("Flask", "\U{2697}\U{FE0F}", 90, 2, "FRAME"),
    Entry("React", "\U{269B}\U{FE0F}", 85, 3, "FRAME"),
    Entry("Tailwind", "\U{1F32C}\U{FE0F}", 90, 4, "FRAME"),
    Entry("HTMX", "\U{1F504}", 85, 5, "FRAME"),
    Entry("Framer", "\U{1F5BC}\U{FE0F}", 80, 6, "FRAME")
  ]

  const AiMl: seq<Entry> := [
    Entry("ANN", "\U{1F9E0}", 85, 1, "AIML"),
    Entry("CNN", "\U{1F441}\U{FE0F}", 85, 2, "AIML"),
    Entry("RAG", "\U{1F4DA}", 90, 3, "AIML"),
    Entry("LangChain", "\U{1F99C}", 90, 4, "AIML"),
    Entry("LangGraph", "\U{1F4CA}", 85, 5, "AIML"),
    Entry("NLP Pipelines", "\U{1F5E3}\U{FE0F}", 90, 6, "AIML")
  ]

  const Backend: seq<Entry> := [
    Entry("PostgreSQL", "\U{1F418}", 90, 1, "BACK"),
    Entry("MongoDB", "\U{1F343}", 85, 2, "BACK"),
    Entry("Redis", "\U{1F534}", 80, 3, "BACK"),
    Entry("Celery", "\U{1F966}", 80, 4, "BACK")
  ]

  const Cloud: seq<Entry> := [
    Entry("Docker", "\U{1F433}", 85, 1, "CLOUD"),
    Entry("AWS", "\U{2601}\U{FE0F}", 80, 2, "CLOUD"),
    Entry("Pipedream", "\U{1F517}", 85, 3, "CLOUD")
  ]

  const Tools: seq<Entry> := [
    Entry("Git", "\U{1F332}", 95, 1, "TOOL"),
    Entry("VS Code", "\U{1F4DD}", 95, 2, "TOOL"),
    Entry("Cursor", "\U{1F5B1}\U{FE0F}", 95, 3, "TOOL"),
    Entry("Jira", "\U{1F3AB}", 85, 4, "TOOL"),
    Entry("LangSmith", "\U{1F6E0}\U{FE0F}", 85, 5, "TOOL")
  ]

  const Fundamentals: seq<Entry> := [
    Entry("Data Structures", "\U{1F333}", 90, 1, "FUND"),
    Entry("Algorithms", "\U{1F9EE}", 90, 2, "FUND"),
    Entry("OOP", "\U{1F4E6}", 95, 3, "FUND"),
    Entry("System Design", "\U{1F3D7}\U{FE0F}", 85, 4, "FUND")
  ]

  const SkillCatalogue: seq<Entry> :=
    Languages + Frameworks + AiMl + Backend + Cloud + Tools + Fundamentals

  /** `s` holds the four fields the command writes from `e`. */
  predicate SkillCarries(s: Skill, e: Entry) {
    s.category == e.category && s.icon == e.icon && s.level == e.level && s.displayOrder == e.order
  }

  function Names(entries: seq<Entry>): set<string> {
    set e | e in entries :: e.name
  }

  ghost predicate NamesDistinct(entries: seq<Entry>) {
    forall i, j :: 0 <= i < j < |entries| ==> entries[i].name != entries[j].name
  }

  /** One iteration: `get_or_create` by name with the entry as defaults, then
      the four fields are forced and the row saved. */
  function UpsertSkill(skills: map<string, Skill>, e: Entry, now: int): (r: map<string, Skill>)
    ensures r.Keys == skills.Keys + {e.name}
    ensures SkillCarries(r[e.name], e)
    ensures r[e.name].createdAt == (if e.name in skills then skills[e.name].createdAt else now)
    ensures forall n :: n in skills && n != e.name ==> r[n] == skills[n]
  {
    var row := if e.name in skills then skills[e.name]
               else NewSkill(e.icon, e.level, Some(e.category), Some(e.order), now);
    skills[e.name := row.(category := e.category, icon := e.icon, level := e.level, displayOrder := e.order)]
  }

  /** The command's loop over `entries`. */
  function UpsertAll(skills: map<string, Skill>, entries: seq<Entry>, now: int): (r: map<string, Skill>)
    decreases |entries|
  {
    if entries == [] then skills
    else UpsertAll(UpsertSkill(skills, entries[0], now), entries[1..], now)
  }

  /** What the loop leaves behind, for a list of distinct names: the table
      gains exactly the names not yet present; each listed row carries its
      entry and keeps its creation time if it already existed; every other
      row is untouched. */
  lemma {:induction false} UpsertAllEffect(skills: map<string, Skill>, entries: seq<Entry>, now: int)
    requires NamesDistinct(entries)
    ensures UpsertAll(skills, entries, now).Keys == skills.Keys + Names(entries)
    ensures forall i :: 0 <= i < |entries| ==>
      && SkillCarries(UpsertAll(skills, entries, now)[entries[i].name], entries[i])
      && UpsertAll(skills, entries, now)[entries[i].name].createdAt
         == (if entries[i].name in skills then skills[entries[i].name].createdAt else now)
    ensures forall n :: n in skills && n !in Names(entries) ==> UpsertAll(skills, entries, now)[n] == skills[n]
    decreases |entries|
  {
    if entries != [] {
      var e := entries[0];
      var step := UpsertSkill(skills, e, now);
      var tail := entries[1..];
      assert NamesDistinct(tail) by {
        forall i, j | 0 <= i < j < |tail| ensures tail[i].name != tail[j].name {
          assert tail[i] == entries[i + 1] && tail[j] == entries[j + 1];
        }
      }
      UpsertAllEffect(step, tail, now);
      var r := UpsertAll(skills, entries, now);
      assert r == UpsertAll(step, tail, now);
      assert Names(entries) == {e.name} + Names(tail) by {
        forall n | n in Names(entries) ensures n in {e.name} + Names(tail) {
          var x :| x in entries && x.name == n;
          var k :| 0 <= k < |entries| && entries[k] == x;
          if k > 0 { assert tail[k - 1] == x; }
        }
      }
      assert e.name !in Names(tail);
      forall i | 0 <= i < |entries|
        ensures SkillCarries(r[entries[i].name], entries[i])
        ensures r[entries[i].name].createdAt
          == (if entries[i].name in skills then skills[entries[i].name].createdAt else now)
      {
        if i == 0 {
          assert r[e.name] == step[e.name];
        } else {
          assert entries[i] == tail[i - 1];
          assert entries[i].name != e.name;
        }
      }
    }
  }

  ghost predicate NamesApart(a: seq<Entry>, b: seq<Entry>) {
    forall i, j :: 0 <= i < |a| && 0 <= j < |b| ==> a[i].name != b[j].name
  }

  lemma DistinctConcat(a: seq<Entry>, b: seq<Entry>)
    requires NamesDistinct(a) && NamesDistinct(b) && NamesApart(a, b)
    ensures NamesDistinct(a + b)
  {
    forall i, j | 0 <= i < j < |a + b| ensures (a + b)[i].name != (a + b)[j].name {
      if j < |a| {
        assert (a + b)[i] == a[i] && (a + b)[j] == a[j];
      } else if i < |a| {
        assert (a + b)[i] == a[i] && (a + b)[j] == b[j - |a|];
      } else {
        assert (a + b)[i] == b[i - |a|] && (a + b)[j] == b[j - |a|];
      }
    }
  }

  lemma ApartConcat(a: seq<Entry>, b: seq<Entry>, c: seq<Entry>)
    requires NamesApart(a, c) && NamesApart(b, c)
    ensures NamesApart(a + b, c)
  {
    forall i, j | 0 <= i < |a + b| && 0 <= j < |c| ensures (a + b)[i].name != c[j].name {
      if i < |a| {
        assert (a + b)[i] == a[i];
      } else {
        assert (a + b)[i] == b[i - |a|];
      }
    }
  }

  /** No block repeats a name. */
  lemma BlocksDistinct()
    ensures NamesDistinct(Languages)
    ensures NamesDistinct(Frameworks)
    ensures NamesDistinct(AiMl)
    ensures NamesDistinct(Backend)
    ensures NamesDistinct(Cloud)
    ensures NamesDistinct(Tools)
    ensures NamesDistinct(Fundamentals)
  {
  }

  lemma ApartFromFrameworks()
    ensures NamesApart(Languages, Frameworks)
  {
  }

  lemma ApartFromAiMl()
    ensures NamesApart(Languages, AiMl)
    ensures NamesApart(Frameworks, AiMl)
  {
  }

  lemma ApartFromBackend()
    ensures NamesApart(Languages, Backend)
    ensures NamesApart(Frameworks, Backend)
    ensures NamesApart(AiMl, Backend)
  {
  }

  lemma ApartFromCloud()
    ensures NamesApart(Languages, Cloud)
    ensures NamesApart(Frameworks, Cloud)
    ensures NamesApart(AiMl, Cloud)
    ensures NamesApart(Backend, Cloud)
  {
  }

  lemma ApartFromTools()
    ensures NamesApart(Languages, Tools)
    ensures NamesApart(Frameworks, Tools)
    ensures NamesApart(AiMl, Tools)
    ensures NamesApart(Backend, Tools)
    ensures NamesApart(Cloud, Tools)
  {
  }

  lemma ApartFromFundamentals()
    ensures NamesApart(Languages, Fundamentals)
    ensures NamesApart(Frameworks, Fundamentals)
    ensures NamesApart(AiMl, Fundamentals)
    ensures NamesApart(Backend, Fundamentals)
    ensures NamesApart(Cloud, Fundamentals)
    ensures NamesApart(Tools, Fundamentals)
  {
  }

  /** The catalogue lists every name once. */
  lemma CatalogueNamesDistinct()
    ensures NamesDistinct(SkillCatalogue)
  {
    BlocksDistinct();
    ApartFromFrameworks();
    DistinctConcat(Languages, Frameworks);
    ApartFromAiMl();
    ApartConcat(Languages, Frameworks, AiMl);
    DistinctConcat(Languages + Frameworks, AiMl);
    ApartFromBackend();
    ApartConcat(Languages, Frameworks, Backend);
    ApartConcat(Languages + Frameworks, AiMl, Backend);
    DistinctConcat(Languages + Frameworks + AiMl, Backend);
    ApartFromCloud();
    ApartConcat(Languages, Frameworks, Cloud);
    ApartConcat(Languages + Frameworks, AiMl, Cloud);
    ApartConcat(Languages + Frameworks + AiMl, Backend, Cloud);
    DistinctConcat(Languages + Frameworks + AiMl + Backend, Cloud);
    ApartFromTools();
    ApartConcat(Languages, Frameworks, Tools);
    ApartConcat(Languages + Frameworks, AiMl, Tools);
    ApartConcat(Languages + Frameworks + AiMl, Backend, Tools);
    ApartConcat(Languages + Frameworks + AiMl + Backend, Cloud, Tools);
    DistinctConcat(Languages + Frameworks + AiMl + Backend + Cloud, Tools);
    ApartFromFundamentals();
    ApartConcat(Languages, Frameworks, Fundamentals);
    ApartConcat(Languages + Frameworks, AiMl, Fundamentals);
    ApartConcat(Languages + Frameworks + AiMl, Backend, Fundamentals);
    ApartConcat(Languages + Frameworks + AiMl + Backend, Cloud, Fundamentals);
    ApartConcat(Languages + Frameworks + AiMl + Backend + Cloud, Tools, Fundamentals);
    DistinctConcat(Languages + Frameworks + AiMl + Backend + Cloud + Tools, Fundamentals);
  }

  predicate RowValid(e: Entry) {
    LevelErrors(e.level) == [] && IsCategoryCode(e.category)
  }

  ghost predicate RowsValid(s: seq<Entry>) {
    forall i :: 0 <= i < |s| ==> RowValid(s[i])
  }

  lemma RowsValidConcat(a: seq<Entry>, b: seq<Entry>)
    requires RowsValid(a) && RowsValid(b)
    ensures RowsValid(a + b)
  {
    forall i | 0 <= i < |a + b| ensures RowValid((a + b)[i]) {
      if i < |a| {
        assert (a + b)[i] == a[i];
      } else {
        assert (a + b)[i] == b[i - |a|];
      }
    }
  }

  /** Every catalogue row passes the level validators and names a declared
      category. */
  lemma CatalogueRowsValid()
    ensures RowsValid(SkillCatalogue)
  {
    assert CategoryChoices[0].0 == "LANG";
    assert RowsValid(Languages);
    assert CategoryChoices[1].0 == "FRAME";
    assert RowsValid(Frameworks);
    assert CategoryChoices[2].0 == "AIML";
    assert RowsValid(AiMl);
    assert CategoryChoices[3].0 == "BACK";
    assert RowsValid(Backend);
    assert CategoryChoices[4].0 == "CLOUD";
    assert RowsValid(Cloud);
    assert CategoryChoices[5].0 == "TOOL";
    assert RowsValid(Tools);
    assert CategoryChoices[6].0 == "FUND";
    assert RowsValid(Fundamentals);
    RowsValidConcat(Languages, Frameworks);
    RowsValidConcat(Languages + Frameworks, AiMl);
    RowsValidConcat(Languages + Frameworks + AiMl, Backend);
    RowsValidConcat(Languages + Frameworks + AiMl + Backend, Cloud);
    RowsValidConcat(Languages + Frameworks + AiMl + Backend + Cloud, Tools);
    RowsValidConcat(Languages + Frameworks + AiMl + Backend + Cloud + Tools, Fundamentals);
  }

  /** Running the loop twice leaves the table as one run did: every listed
      row already exists, keeps its creation time and is overwritten with
      the same four fields. */
  lemma UpsertAllIdempotent(skills: map<string, Skill>, entries: seq<Entry>, now: int, later: int)
    requires NamesDistinct(entries)
    ensures UpsertAll(UpsertAll(skills, entries, now), entries, later) == UpsertAll(skills, entries, now)
  {
    var once := UpsertAll(skills, entries, now);
    var twice := UpsertAll(once, entries, later);
    UpsertAllEffect(skills, entries, now);
    UpsertAllEffect(once, entries, later);
    forall n | n in twice ensures twice[n] == once[n] {
      if n in Names(entries) {
        var e :| e in entries && e.name == n;
        var i :| 0 <= i < |entries| && entries[i] == e;
      }
    }
  }

  /** Upserting valid rows keeps every row of the table valid. */
  lemma {:induction false} UpsertAllKeepsValid(skills: map<string, Skill>, entries: seq<Entry>, now: int)
    requires forall n :: n in skills ==> ValidSkill(skills[n])
    requires RowsValid(entries)
    ensures forall n :: n in UpsertAll(skills, entries, now) ==> ValidSkill(UpsertAll(skills, entries, now)[n])
    decreases |entries|
  {
    if entries != [] {
      var step := UpsertSkill(skills, entries[0], now);
      assert RowValid(entries[0]);
      assert RowsValid(entries[1..]) by {
        forall i | 0 <= i < |entries[1..]| ensures RowValid(entries[1..][i]) {
          assert entries[1..][i] == entries[i + 1];
        }
      }
      UpsertAllKeepsValid(step, entries[1..], now);
    }
  }

  /** The seeder command: the updated store and the processed count it
      reports. */
  function RunSkillSeeder(st: Store, now: int): (r: (Store, nat))
    ensures r.1 == |SkillCatalogue| == 35
  {
    (st.(skills := UpsertAll(st.skills, SkillCatalogue, now)), |SkillCatalogue|)
  }

  /** What one run of the command does: it reports 35 processed skills;
      the catalogue's names are added when missing, each carries its
      catalogue fields, rows that existed keep their creation time, every
      other skill and every other table is untouched. */
  lemma SkillSeederEffect(st: Store, now: int)
    ensures RunSkillSeeder(st, now).1 == 35
    ensures var s := RunSkillSeeder(st, now).0;
      && s.skills.Keys == st.skills.Keys + Names(SkillCatalogue)
      && (forall i :: 0 <= i < |SkillCatalogue| ==>
           && SkillCarries(s.skills[SkillCatalogue[i].name], SkillCatalogue[i])
           && s.skills[SkillCatalogue[i].name].createdAt
              == (if SkillCatalogue[i].name in st.skills then st.skills[SkillCatalogue[i].name].createdAt else now))
      && (forall n :: n in st.skills && n !in Names(SkillCatalogue) ==> s.skills[n] == st.skills[n])
      && s.experiences == st.experiences && s.nextExperienceId == st.nextExperienceId
      && s.projects == st.projects && s.technologies == st.technologies
      && s.messages == st.messages && s.users == st.users
  {
    CatalogueNamesDistinct();
    UpsertAllEffect(st.skills, SkillCatalogue, now);
  }

  /** Re-running the command changes nothing. */
  lemma SkillSeederIdempotent(st: Store, now: int, later: int)
    ensures RunSkillSeeder(RunSkillSeeder(st, now).0, later).0 == RunSkillSeeder(st, now).0
  {
    CatalogueNamesDistinct();
    UpsertAllIdempotent(st.skills, SkillCatalogue, now, later);
  }

  /** Seeding keeps the store's invariants, and if every skill was valid
      before, every skill is valid after. */
  lemma SkillSeederKeepsInvariants(st: Store, now: int)
    requires WellFormed(st)
    ensures WellFormed(RunSkillSeeder(st, now).0)
    ensures (forall n :: n in st.skills ==> ValidSkill(st.skills[n]))
      ==> forall n :: n in RunSkillSeeder(st, now).0.skills ==> ValidSkill(RunSkillSeeder(st, now).0.skills[n])
  {
    if forall n :: n in st.skills ==> ValidSkill(st.skills[n]) {
      CatalogueRowsValid();
      UpsertAllKeepsValid(st.skills, SkillCatalogue, now);
    }
  }
}
