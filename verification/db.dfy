/** The content store: one table per record type, each keyed the way the
    handlers and seeders look rows up. */
module Db {
  import opened Models
  import opened Auth

  datatype Store = Store(
    experiences: map<nat, Experience>,
    nextExperienceId: nat,
    skills: map<string, Skill>,
    projects: map<string, Project>,
    technologies: map<string, Technology>,
    messages: seq<ContactMessage>,
    users: map<string, User>)

  /** Invariants the database keeps: experience ids come from an
      auto-increment counter and are never reused, stored dates are real
      dates, every project links only existing technologies, and the user
      table is keyed by username. */
  predicate WellFormed(st: Store) {
    && (forall id :: id in st.experiences ==> id < st.nextExperienceId)
    && (forall id :: id in st.experiences ==> ValidExperience(st.experiences[id]))
    && (forall t :: t in st.projects ==> st.projects[t].technologies <= st.technologies.Keys)
    && UsersWellFormed(st.users)
  }
}
