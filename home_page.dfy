/** The home page: the course search and the course card click. */
module HomePage {
  import opened Text
  import Seqs

  datatype Course = Course(id: int, name: string)

  /** `filtered`: the lowercased name contains the trimmed, lowercased search. */
  function FilteredCourses(courses: seq<Course>, search: string): seq<Course> {
    Seqs.Filter(courses, (c: Course) => Contains(ToLower(c.name), ToLower(Trim(search))))
  }

  /** A course is listed exactly when its name matches, in the courses' order, and a blank
      search lists every course. */
  lemma FilteredCoursesExact(courses: seq<Course>, search: string, c: Course)
    ensures c in FilteredCourses(courses, search) <==>
              c in courses && Contains(ToLower(c.name), ToLower(Trim(search)))
    ensures Seqs.IsSubsequence(FilteredCourses(courses, search), courses)
    ensures AllSpace(search) ==> FilteredCourses(courses, search) == courses
  {
    var p := (c: Course) => Contains(ToLower(c.name), ToLower(Trim(search)));
    Seqs.FilterIsSubsequence(courses, p);
    if c in courses && p(c) {
      var i :| 0 <= i < |courses| && courses[i] == c;
    }
    if AllSpace(search) {
      TrimShape(search);
      forall i | 0 <= i < |courses| ensures p(courses[i]) {
        assert StartsWith(ToLower(courses[i].name), "");
      }
      Seqs.FilterKeepsAll(courses, p);
    }
  }

  /** `handleCourseClick`: the id stored as the last selected course (as text), and the path
      of that course's page. */
  function CourseClick(courseId: int): (string, string) {
    (IntDecimal(courseId), "/dashboard/courses/" + IntDecimal(courseId))
  }
}
