/**
 * The course creation page: the editable list of topic rows, and the submit that creates the
 * course and then one topic per non-blank row.
 */
module CourseCreatePage {
  import opened Wrappers
  import opened Text
  import Seqs

  /** The topic rows a fresh form shows: one empty row. */
  const InitialTopics: seq<string> := [""]

  /** `handleTopicChange`: row `index` takes the new text. */
  function ReplaceAt(topics: seq<string>, index: nat, value: string): (r: seq<string>)
    requires index < |topics|
    ensures |r| == |topics| && r[index] == value
    ensures forall j :: 0 <= j < |topics| && j != index ==> r[j] == topics[j]
  {
    topics[index := value]
  }

  /** `removeTopic`: `topics.filter((_, i) => i !== index)`. */
  function RemoveAt(topics: seq<string>, index: nat): (r: seq<string>)
    requires index < |topics|
    ensures |r| == |topics| - 1
    ensures forall j :: 0 <= j < index ==> r[j] == topics[j]
    ensures forall j :: index <= j < |r| ==> r[j] == topics[j + 1]
  {
    topics[..index] + topics[index + 1..]
  }

  /** Removing a freshly added row gives the list back, and an edit to a row that is then
      removed leaves no trace. */
  lemma RowEditsUndo(topics: seq<string>, index: nat, value: string)
    requires index < |topics|
    ensures RemoveAt(topics + [""], |topics|) == topics
    ensures RemoveAt(ReplaceAt(topics, index, value), index) == RemoveAt(topics, index)
  {
    assert (topics + [""])[..|topics|] == topics;
  }

  /** The rows that become topics: those that are not blank, untrimmed, in row order. */
  function NonBlankTopics(topics: seq<string>): seq<string> {
    Seqs.Filter(topics, (t: string) => Trim(t) != "")
  }

  /** Exactly the rows with a non-space character are posted, in order, and the rows of a
      fresh form post nothing. */
  lemma NonBlankTopicsExact(topics: seq<string>, t: string)
    ensures t in NonBlankTopics(topics) <==> t in topics && !AllSpace(t)
    ensures Seqs.IsSubsequence(NonBlankTopics(topics), topics)
    ensures NonBlankTopics(InitialTopics) == []
  {
    TrimShape(t);
    Seqs.FilterIsSubsequence(topics, (t: string) => Trim(t) != "");
    if t in topics && !AllSpace(t) {
      var i :| 0 <= i < |topics| && topics[i] == t;
    }
    assert Trim("") == "" by { TrimShape(""); }
  }

  /** A topic creation request: the row's text and the course it belongs to, nested as
      `course: { id }`. */
  datatype TopicPost = TopicPost(name: string, courseId: int)

  function TopicPosts(topics: seq<string>, courseId: int): (r: seq<TopicPost>)
    ensures |r| == |NonBlankTopics(topics)|
    ensures forall i :: 0 <= i < |r| ==> r[i] == TopicPost(NonBlankTopics(topics)[i], courseId)
  {
    var names := NonBlankTopics(topics);
    seq(|names|, i requires 0 <= i < |names| => TopicPost(names[i], courseId))
  }

  /** The browser's `required` check on the course name input and every topic input: each must
      be non-empty, though a value of spaces passes. */
  predicate RequiredFilled(courseName: string, topics: seq<string>) {
    courseName != "" && "" !in topics
  }

  /** A fresh form cannot be submitted, and in a form that can be, the rows left out of the
      topic posts are exactly the non-empty ones made of spaces only. */
  lemma SubmitGate(courseName: string, topics: seq<string>, t: string)
    ensures !RequiredFilled(courseName, InitialTopics)
    ensures RequiredFilled(courseName, topics) && t in topics ==>
              (t !in NonBlankTopics(topics) <==> t != "" && AllSpace(t))
  {
    NonBlankTopicsExact(topics, t);
  }

  const SuccessMessage := "\U{2705} Course and topics created successfully!"
  const ErrorMessage := "\U{274C} Error creating course or topics."

  class Page {
    var courseName: string
    var courseDescription: string
    var topics: seq<string>
    var successMessage: string
    var errorMessage: string

    /** There is always at least one row. */
    ghost predicate Valid()
      reads this
    {
      |topics| >= 1
    }

    constructor ()
      ensures Valid() && topics == InitialTopics && courseName == "" && courseDescription == ""
    {
      courseName, courseDescription, topics := "", "", InitialTopics;
      successMessage, errorMessage := "", "";
    }

    method HandleTopicChange(index: nat, value: string)
      requires Valid() && index < |topics|
      modifies this
      ensures Valid() && topics == ReplaceAt(old(topics), index, value)
      ensures courseName == old(courseName) && courseDescription == old(courseDescription)
    {
      topics := topics[index := value];
    }

    method AddTopic()
      requires Valid()
      modifies this
      ensures Valid() && topics == old(topics) + [""]
      ensures courseName == old(courseName) && courseDescription == old(courseDescription)
    {
      topics := topics + [""];
    }

    /** The remove button is only offered while there is more than one row. */
    method RemoveTopic(index: nat)
      requires Valid() && |topics| > 1 && index < |topics|
      modifies this
      ensures Valid() && topics == RemoveAt(old(topics), index)
      ensures courseName == old(courseName) && courseDescription == old(courseDescription)
    {
      topics := topics[..index] + topics[index + 1..];
    }

    /** The submit button: the browser's check of the `required` course name and topic inputs
        runs first, and an empty one keeps `handleSubmit` from running at all, so nothing is
        posted and nothing changes. Otherwise the course is created (`createdId` is the server's
        id, `None` if the request failed), then a topic for each non-blank row; on full success
        the form is reset, otherwise the error is shown and the form kept. */
    method HandleSubmit(createdId: Option<int>, topicsSucceeded: bool)
      returns (course: Option<(string, string)>, posts: seq<TopicPost>)
      requires Valid()
      modifies this
      ensures Valid()
      ensures !RequiredFilled(old(courseName), old(topics)) ==>
                course == None && posts == []
                && courseName == old(courseName) && courseDescription == old(courseDescription)
                && topics == old(topics) && successMessage == old(successMessage)
                && errorMessage == old(errorMessage)
      ensures RequiredFilled(old(courseName), old(topics)) ==>
                course == Some((old(courseName), old(courseDescription)))
                && posts == (if createdId.Some? then TopicPosts(old(topics), createdId.value) else [])
      ensures RequiredFilled(old(courseName), old(topics)) && createdId.Some? && topicsSucceeded ==>
                successMessage == SuccessMessage && errorMessage == ""
                && courseName == "" && courseDescription == "" && topics == InitialTopics
      ensures RequiredFilled(old(courseName), old(topics)) && !(createdId.Some? && topicsSucceeded) ==>
                errorMessage == ErrorMessage && successMessage == ""
                && courseName == old(courseName) && courseDescription == old(courseDescription)
                && topics == old(topics)
    {
      if !RequiredFilled(courseName, topics) {
        return None, [];
      }
      successMessage, errorMessage := "", "";
      course := Some((courseName, courseDescription));
      if createdId.None? {
        posts := [];
        errorMessage := ErrorMessage;
        return;
      }
      posts := TopicPosts(topics, createdId.value);
      if topicsSucceeded {
        successMessage := SuccessMessage;
        courseName, courseDescription, topics := "", "", InitialTopics;
      } else {
        errorMessage := ErrorMessage;
      }
    }
  }
}
