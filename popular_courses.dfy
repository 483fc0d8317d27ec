/** The popular courses catalogue: category and text filtering, featured courses, and the
    headings. The catalogue itself is a parameter. */
module PopularCourses {
  import opened Text
  import Seqs

  datatype Course = Course(id: int, title: string, provider: string, category: string,
                           featured: bool, description: string)

  const Categories: seq<string> :=
    ["All", "Computer Science", "Data Science", "AI & Machine Learning", "Business", "Health"]

  predicate MatchesCategory(c: Course, activeCategory: string) {
    activeCategory == "All" || c.category == activeCategory
  }

  /** The query, lowercased but not trimmed, occurs in the lowercased title, provider or
      description. */
  predicate MatchesQuery(c: Course, searchQuery: string) {
    var q := ToLower(searchQuery);
    Contains(ToLower(c.title), q) || Contains(ToLower(c.provider), q) || Contains(ToLower(c.description), q)
  }

  function FilteredCourses(courses: seq<Course>, activeCategory: string, searchQuery: string): seq<Course> {
    Seqs.Filter(courses, (c: Course) => MatchesCategory(c, activeCategory) && MatchesQuery(c, searchQuery))
  }

  /** A course is listed exactly when both tests pass, in catalogue order; with no query and
      "All" the whole catalogue is listed. */
  lemma FilteredCoursesExact(courses: seq<Course>, activeCategory: string, searchQuery: string, c: Course)
    ensures c in FilteredCourses(courses, activeCategory, searchQuery) <==>
              c in courses && MatchesCategory(c, activeCategory) && MatchesQuery(c, searchQuery)
    ensures Seqs.IsSubsequence(FilteredCourses(courses, activeCategory, searchQuery), courses)
    ensures searchQuery == "" && activeCategory == "All" ==>
              FilteredCourses(courses, activeCategory, searchQuery) == courses
  {
    var p := (c: Course) => MatchesCategory(c, activeCategory) && MatchesQuery(c, searchQuery);
    Seqs.FilterIsSubsequence(courses, p);
    if c in courses && p(c) {
      var i :| 0 <= i < |courses| && courses[i] == c;
    }
    if searchQuery == "" && activeCategory == "All" {
      forall i | 0 <= i < |courses| ensures p(courses[i]) {
        assert StartsWith(ToLower(courses[i].title), "");
      }
      Seqs.FilterKeepsAll(courses, p);
    }
  }

  function FeaturedCourses(courses: seq<Course>): seq<Course> {
    Seqs.Filter(courses, (c: Course) => c.featured)
  }

  lemma FeaturedCoursesExact(courses: seq<Course>, c: Course)
    ensures c in FeaturedCourses(courses) <==> c in courses && c.featured
    ensures Seqs.IsSubsequence(FeaturedCourses(courses), courses)
  {
    Seqs.FilterIsSubsequence(courses, (c: Course) => c.featured);
    if c in courses && c.featured {
      var i :| 0 <= i < |courses| && courses[i] == c;
    }
  }

  /** The featured section is shown only for the unfiltered catalogue. */
  predicate ShowFeatured(activeCategory: string, searchQuery: string) {
    searchQuery == "" && activeCategory == "All"
  }

  /** The heading of the listing. */
  function Heading(activeCategory: string, searchQuery: string): string {
    if searchQuery != "" then "Search Results"
    else if activeCategory == "All" then "All Courses"
    else activeCategory + " Courses"
  }

  /** Whenever the featured section is shown, the listing below it is headed "All Courses" and
      holds the whole catalogue; a search result listing never comes with it, and a category
      listing is headed by its category. */
  lemma FeaturedOnlyWithAllCourses(courses: seq<Course>, activeCategory: string, searchQuery: string)
    ensures ShowFeatured(activeCategory, searchQuery) ==>
              Heading(activeCategory, searchQuery) == "All Courses"
              && FilteredCourses(courses, activeCategory, searchQuery) == courses
    ensures Heading(activeCategory, searchQuery) == "Search Results" <==> searchQuery != ""
    ensures searchQuery == "" && activeCategory != "All" ==>
              Heading(activeCategory, searchQuery) == activeCategory + " Courses"
  {
    if ShowFeatured(activeCategory, searchQuery) {
      FilteredCoursesExact(courses, activeCategory, searchQuery, Course(0, "", "", "", false, ""));
    }
    if searchQuery == "" {
      assert Heading(activeCategory, searchQuery) != "Search Results" by {
        if activeCategory != "All" {
          var h := activeCategory + " Courses";
          assert |h| >= 8 && h[|h| - 7] == 'C';
          assert "Search Results"[|"Search Results"| - 7] == 'R';
        }
      }
    }
  }
}
