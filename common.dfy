/** Values shared by the backend and the frontend model. */
module Common {

  /** A value that may be missing: a JSON null, an absent key or a SQL NULL. */
  datatype Option<+T> = None | Some(value: T)

  /** Python and JavaScript truthiness of an optional string: present and not empty. */
  predicate Truthy(o: Option<string>) {
    o.Some? && o.value != ""
  }

  /** `o or d` in Python, `o || d` in JavaScript, for an optional string. */
  function OrElse(o: Option<string>, d: string): string {
    if Truthy(o) then o.value else d
  }

  /** The user record that the login endpoint returns and the browser keeps as the session. */
  datatype SessionUser = SessionUser(userId: string, name: string, email: string, role: string)

  const StudentRole := "student"
  const InstructorRole := "instructor"
  const AdministratorRole := "administrator"
  const AnalystRole := "data_analyst"

  /** A subset is no larger than its superset. */
  lemma {:induction false} SubsetCardinality<T>(a: set<T>, b: set<T>)
    requires a <= b
    ensures |a| <= |b|
    decreases |b|
  {
    if a != {} {
      var x :| x in a;
      SubsetCardinality(a - {x}, b - {x});
    }
  }
}
