/** The `seed_projects` management command: upserts four portfolio
    projects by title, get-or-creates their technologies by stripped name,
    and replaces each project's technology links. */
module SeedProjects {
  import opened Values
  import opened Text
  import opened Models
  import opened Db

  /** One catalogue row: title, technology names, description, display order. */
  datatype ProjectEntry = ProjectEntry(title: string, technologies: seq<string>, description: string, order: nat)

  /** The projects the command writes, in its order. The second title holds
      the three characters U+00E2 U+20AC U+201C, as the command spells it. */
  const ProjectCatalogue: seq<ProjectEntry> := [
    ProjectEntry(
      "Generative AI - Dean's Research",
      ["Python", "Hugging Face"],
      "Built an end-to-end NLP pipeline for smart-city text, including scraping, normalization, zero-shot topic classification, and interactive ranking UI. Benchmarked BERT/GPT/BART models; deployed a BART-MNLI inference pipeline with 0.7 confidence routing and semantic retrieval to improve precision; presented results in a DRA poster.",
      1),
    ProjectEntry(
      "Arcane Events \U{E2}\U{20AC}\U{201C} Lottery-Based Android Event Platform",
      ["Java", "Android Studio", "Firebase", "GitHub Projects", "Figma", "QR Scanning", "Geolocation APIs"],
      "Developed a production-scale Android application enabling lottery-based event registration with multi-role access (entrant, organizer, admin), real-time notifications, QR code scanning, and Firebase-backed data persistence. Executed the full software engineering lifecycle in a 7-person team, including requirements gathering, UML/CRC design, sprint planning, backlog management, and iterative delivery with documented agile workflows.",
      2),
    ProjectEntry(
      "Portfolio Website",
      ["Python", "Django", "HTML", "CSS", "JavaScript", "Tailwind CSS", "PostgreSQL", "Docker"],
      "Developed a production-grade full-stack Django platform with a custom CMS, Dockerized PostgreSQL, and modular Tailwind/HTMX frontend architecture. Implemented interactive features (cursor effects, partial page loads, admin dashboards) to improve UX and maintainability.",
      3),
    ProjectEntry(
      "Autonomous Game AI Controller",
      ["Python", "NumPy", "SciPy", "scikit-fuzzy", "Genetic Algorithms"],
      "Built a fuzzy-logic autonomous game controller integrating real-time targeting, collision avoidance, and motion control using multi-sensor inputs (bullet time, angular error, collision risk, ship dynamics). Optimized controller behavior using a genetic algorithm, tuning fuzzy parameters to maximize hit rate while minimizing deaths through simulation-based fitness evaluation.",
      4)
  ]

  /** The names `get_techs` looks up: each given name after `strip()`. */
  function Stripped(names: seq<string>): (keys: seq<string>)
    ensures |keys| == |names| && forall i :: 0 <= i < |names| ==> keys[i] == Strip(names[i])
  {
    seq(|names|, i requires 0 <= i < |names| => Strip(names[i]))
  }

  /** The technology names a row links. */
  function TechKeys(names: seq<string>): set<string> {
    set k | k in Stripped(names)
  }

  /** `get_techs`: for each stripped name in order, `get_or_create` the
      technology of that name. */
  function GetTechs(techs: map<string, Technology>, keys: seq<string>, now: int): (r: map<string, Technology>)
    decreases |keys|
  {
    if keys == [] then techs
    else GetTechs(if keys[0] in techs then techs else techs[keys[0] := Technology(now)], keys[1..], now)
  }

  /** The table gains exactly the names it lacked, each created at `now`;
      existing rows come back unchanged. */
  lemma {:induction false} GetTechsEffect(techs: map<string, Technology>, keys: seq<string>, now: int)
    ensures GetTechs(techs, keys, now).Keys == techs.Keys + set k | k in keys
    ensures forall t :: t in techs ==> GetTechs(techs, keys, now)[t] == techs[t]
    ensures forall t :: t in GetTechs(techs, keys, now) && t !in techs ==> GetTechs(techs, keys, now)[t] == Technology(now)
    decreases |keys|
  {
    if keys != [] {
      var step := if keys[0] in techs then techs else techs[keys[0] := Technology(now)];
      GetTechsEffect(step, keys[1..], now);
      assert (set k | k in keys) == {keys[0]} + set k | k in keys[1..] by {
        assert forall k :: k in keys <==> k == keys[0] || k in keys[1..];
      }
    }
  }

  /** What the command writes into a project from its row: description,
      display order and the technology links. */
  predicate ProjectCarries(p: Project, e: ProjectEntry) {
    p.description == e.description && p.displayOrder == e.order && p.technologies == TechKeys(e.technologies)
  }

  /** The fields the command never overwrites: kept from the existing row,
      or the creation defaults (no image, no link, featured, created now). */
  predicate KeepsOrigin(p: Project, before: Option<Project>, now: int) {
    if before.Some? then
      && p.image == before.value.image && p.githubUrl == before.value.githubUrl
      && p.featured == before.value.featured && p.createdAt == before.value.createdAt
    else
      p.image.None? && p.githubUrl.None? && p.featured && p.createdAt == now
  }

  /** One iteration: `get_or_create` by title (created featured, with the
      row's description and order), overwrite description and order of an
      existing project, then `technologies.set(get_techs(...))`. */
  function UpsertProject(st: Store, e: ProjectEntry, now: int): (r: Store)
    ensures r.experiences == st.experiences && r.nextExperienceId == st.nextExperienceId
    ensures r.skills == st.skills && r.messages == st.messages && r.users == st.users
  {
    var saved :=
      if e.title in st.projects then st.projects[e.title].(description := e.description, displayOrder := e.order)
      else Project(e.description, None, None, {}, true, e.order, now);
    st.(projects := st.projects[e.title := saved.(technologies := TechKeys(e.technologies))],
        technologies := GetTechs(st.technologies, Stripped(e.technologies), now))
  }

  /** What one iteration does to the project table: the project carries
      its row and keeps (or gets by default) the fields the command does not
      write; every other project is untouched. */
  lemma UpsertProjectRow(st: Store, e: ProjectEntry, now: int)
    ensures var r := UpsertProject(st, e, now);
      && r.projects.Keys == st.projects.Keys + {e.title}
      && ProjectCarries(r.projects[e.title], e) && KeepsOrigin(r.projects[e.title], Get(st.projects, e.title), now)
      && (forall t :: t in st.projects && t != e.title ==> r.projects[t] == st.projects[t])
  {
  }

  /** What one iteration does to the technology table: it grows as
      `get_techs` says. */
  lemma UpsertProjectTechnologies(st: Store, e: ProjectEntry, now: int)
    ensures var r := UpsertProject(st, e, now);
      && r.technologies.Keys == st.technologies.Keys + TechKeys(e.technologies)
      && (forall t :: t in st.technologies ==> r.technologies[t] == st.technologies[t])
      && (forall t :: t in r.technologies && t !in st.technologies ==> r.technologies[t] == Technology(now))
  {
    GetTechsEffect(st.technologies, Stripped(e.technologies), now);
  }

  /** A linked name is the stripped form of one of the row's names. */
  lemma TechKeysAreStripped(names: seq<string>, k: string)
    ensures k in TechKeys(names) <==> exists i :: 0 <= i < |names| && Strip(names[i]) == k
  {
    if k in TechKeys(names) {
      var i :| 0 <= i < |Stripped(names)| && Stripped(names)[i] == k;
    }
  }

  function Titles(entries: seq<ProjectEntry>): set<string> {
    set e | e in entries :: e.title
  }

  /** Every technology name the rows link. */
  function TechNames(entries: seq<ProjectEntry>): set<string>
    decreases |entries|
  {
    if entries == [] then {} else TechKeys(entries[0].technologies) + TechNames(entries[1..])
  }

  ghost predicate TitlesDistinct(entries: seq<ProjectEntry>) {
    forall i, j :: 0 <= i < j < |entries| ==> entries[i].title != entries[j].title
  }

  /** The command's loop over `entries`. */
  function SeedAll(st: Store, entries: seq<ProjectEntry>, now: int): (r: Store)
    ensures r.experiences == st.experiences && r.nextExperienceId == st.nextExperienceId
    ensures r.skills == st.skills && r.messages == st.messages && r.users == st.users
    decreases |entries|
  {
    if entries == [] then st else SeedAll(UpsertProject(st, entries[0], now), entries[1..], now)
  }

  lemma TitlesCons(entries: seq<ProjectEntry>)
    requires entries != []
    ensures Titles(entries) == {entries[0].title} + Titles(entries[1..])
    ensures TitlesDistinct(entries) ==> TitlesDistinct(entries[1..]) && entries[0].title !in Titles(entries[1..])
  {
    var tail := entries[1..];
    forall t | t in Titles(entries) ensures t in {entries[0].title} + Titles(tail) {
      var x :| x in entries && x.title == t;
      var k :| 0 <= k < |entries| && entries[k] == x;
      if k > 0 { assert tail[k - 1] == x; }
    }
    if TitlesDistinct(entries) {
      forall i, j | 0 <= i < j < |tail| ensures tail[i].title != tail[j].title {
        assert tail[i] == entries[i + 1] && tail[j] == entries[j + 1];
      }
      forall x | x in tail ensures x.title != entries[0].title {
        var k :| 0 <= k < |tail| && tail[k] == x;
        assert entries[k + 1] == x;
      }
    }
  }

  /** The technology table after the loop: it gains exactly the missing
      linked names, created at `now`; existing rows are untouched. */
  lemma {:induction false} SeedAllTechnologies(st: Store, entries: seq<ProjectEntry>, now: int)
    ensures var r := SeedAll(st, entries, now);
      && r.technologies.Keys == st.technologies.Keys + TechNames(entries)
      && (forall t :: t in st.technologies ==> r.technologies[t] == st.technologies[t])
      && (forall t :: t in r.technologies && t !in st.technologies ==> r.technologies[t] == Technology(now))
    decreases |entries|
  {
    if entries != [] {
      UpsertProjectTechnologies(st, entries[0], now);
      SeedAllTechnologies(UpsertProject(st, entries[0], now), entries[1..], now);
    }
  }

  /** `after` is `before` with every row of `entries` upserted: the listed
      projects carry their rows and keep, or get by default, the fields the
      command does not write; other projects are untouched. */
  ghost predicate ProjectsSeeded(before: map<string, Project>, after: map<string, Project>, entries: seq<ProjectEntry>, now: int) {
    && after.Keys == before.Keys + Titles(entries)
    && (forall i :: 0 <= i < |entries| ==>
         && ProjectCarries(after[entries[i].title], entries[i])
         && KeepsOrigin(after[entries[i].title], Get(before, entries[i].title), now))
    && (forall t :: t in before && t !in Titles(entries) ==> after[t] == before[t])
  }

  /** The loop adds exactly the listed titles and leaves every other
      project alone. */
  lemma {:induction false} SeedAllOtherProjects(st: Store, entries: seq<ProjectEntry>, now: int)
    ensures SeedAll(st, entries, now).projects.Keys == st.projects.Keys + Titles(entries)
    ensures forall t :: t in st.projects && t !in Titles(entries) ==> SeedAll(st, entries, now).projects[t] == st.projects[t]
    decreases |entries|
  {
    if entries != [] {
      UpsertProjectRow(st, entries[0], now);
      TitlesCons(entries);
      SeedAllOtherProjects(UpsertProject(st, entries[0], now), entries[1..], now);
    }
  }

  /** The `i`-th row's project after the loop, for rows with distinct
      titles: it carries the row, and keeps (or gets by default) the fields
      the command does not write. */
  lemma {:induction false} SeedAllProjectRow(st: Store, entries: seq<ProjectEntry>, now: int, i: int)
    requires TitlesDistinct(entries)
    requires 0 <= i < |entries|
    ensures entries[i].title in SeedAll(st, entries, now).projects
    ensures ProjectCarries(SeedAll(st, entries, now).projects[entries[i].title], entries[i])
    ensures KeepsOrigin(SeedAll(st, entries, now).projects[entries[i].title], Get(st.projects, entries[i].title), now)
    decreases |entries|
  {
    var e := entries[0];
    var step := UpsertProject(st, e, now);
    UpsertProjectRow(st, e, now);
    TitlesCons(entries);
    if i == 0 {
      SeedAllOtherProjects(step, entries[1..], now);
    } else {
      SeedAllProjectRow(step, entries[1..], now, i - 1);
      assert entries[1..][i - 1] == entries[i];
      assert entries[i].title in Titles(entries[1..]);
      assert Get(step.projects, entries[i].title) == Get(st.projects, entries[i].title);
    }
  }

  /** The project table after the loop, for rows with distinct titles. */
  lemma SeedAllProjects(st: Store, entries: seq<ProjectEntry>, now: int)
    requires TitlesDistinct(entries)
    ensures ProjectsSeeded(st.projects, SeedAll(st, entries, now).projects, entries, now)
  {
    SeedAllOtherProjects(st, entries, now);
    forall i | 0 <= i < |entries|
      ensures ProjectCarries(SeedAll(st, entries, now).projects[entries[i].title], entries[i])
      ensures KeepsOrigin(SeedAll(st, entries, now).projects[entries[i].title], Get(st.projects, entries[i].title), now)
    {
      SeedAllProjectRow(st, entries, now, i);
    }
  }

  /** One iteration keeps every project's links inside the technology
      table. */
  lemma UpsertProjectKeepsWellFormed(st: Store, e: ProjectEntry, now: int)
    requires WellFormed(st)
    ensures WellFormed(UpsertProject(st, e, now))
  {
    UpsertProjectRow(st, e, now);
    UpsertProjectTechnologies(st, e, now);
  }

  lemma {:induction false} SeedAllKeepsWellFormed(st: Store, entries: seq<ProjectEntry>, now: int)
    requires WellFormed(st)
    ensures WellFormed(SeedAll(st, entries, now))
    decreases |entries|
  {
    if entries != [] {
      UpsertProjectKeepsWellFormed(st, entries[0], now);
      SeedAllKeepsWellFormed(UpsertProject(st, entries[0], now), entries[1..], now);
    }
  }

  lemma RerunKeepsProjects(st: Store, entries: seq<ProjectEntry>, now: int, later: int)
    requires TitlesDistinct(entries)
    ensures SeedAll(SeedAll(st, entries, now), entries, later).projects == SeedAll(st, entries, now).projects
  {
    var once := SeedAll(st, entries, now);
    var twice := SeedAll(once, entries, later);
    SeedAllProjects(st, entries, now);
    SeedAllProjects(once, entries, later);
    forall t | t in twice.projects ensures twice.projects[t] == once.projects[t] {
      if t in Titles(entries) {
        var e :| e in entries && e.title == t;
        var i :| 0 <= i < |entries| && entries[i] == e;
      }
    }
  }

  lemma RerunKeepsTechnologies(st: Store, entries: seq<ProjectEntry>, now: int, later: int)
    ensures SeedAll(SeedAll(st, entries, now), entries, later).technologies == SeedAll(st, entries, now).technologies
  {
    SeedAllTechnologies(st, entries, now);
    SeedAllTechnologies(SeedAll(st, entries, now), entries, later);
  }

  /** Running the loop twice leaves the store as one run did. */
  lemma SeedAllIdempotent(st: Store, entries: seq<ProjectEntry>, now: int, later: int)
    requires TitlesDistinct(entries)
    ensures SeedAll(SeedAll(st, entries, now), entries, later) == SeedAll(st, entries, now)
  {
    RerunKeepsProjects(st, entries, now, later);
    RerunKeepsTechnologies(st, entries, now, later);
  }

  /** The catalogue names each project once. */
  lemma CatalogueTitlesDistinct()
    ensures TitlesDistinct(ProjectCatalogue)
  {
  }

  /** The seeder command. */
  function RunProjectSeeder(st: Store, now: int): (r: Store)
    ensures r.experiences == st.experiences && r.skills == st.skills && r.messages == st.messages && r.users == st.users
  {
    SeedAll(st, ProjectCatalogue, now)
  }

  /** One run, project table: the four catalogue projects carry their rows
      (description, order, links); newly created ones are featured with no
      image or link, existing ones keep those fields and their creation
      time; no other project changes. */
  lemma ProjectSeederProjectsEffect(st: Store, now: int)
    ensures ProjectsSeeded(st.projects, RunProjectSeeder(st, now).projects, ProjectCatalogue, now)
  {
    CatalogueTitlesDistinct();
    SeedAllProjects(st, ProjectCatalogue, now);
  }

  /** One run, technology table: it only gains the linked names it lacked. */
  lemma ProjectSeederTechnologiesEffect(st: Store, now: int)
    ensures var r := RunProjectSeeder(st, now);
      && r.technologies.Keys == st.technologies.Keys + TechNames(ProjectCatalogue)
      && (forall t :: t in st.technologies ==> r.technologies[t] == st.technologies[t])
  {
    SeedAllTechnologies(st, ProjectCatalogue, now);
  }

  /** Re-running the command changes nothing. */
  lemma ProjectSeederIdempotent(st: Store, now: int, later: int)
    ensures RunProjectSeeder(RunProjectSeeder(st, now), later) == RunProjectSeeder(st, now)
  {
    CatalogueTitlesDistinct();
    SeedAllIdempotent(st, ProjectCatalogue, now, later);
  }

  /** Seeding keeps the store's invariants: every link still names a row of
      the technology table. */
  lemma ProjectSeederKeepsWellFormed(st: Store, now: int)
    requires WellFormed(st)
    ensures WellFormed(RunProjectSeeder(st, now))
  {
    SeedAllKeepsWellFormed(st, ProjectCatalogue, now);
  }
}
