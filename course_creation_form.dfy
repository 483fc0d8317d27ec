/**
 * The course creation form component: the same topic rows without removal, and topics posted
 * with a flat `courseId` field.
 */
module CourseCreationForm {
  import opened Wrappers
  import CCP = CourseCreatePage

  /** A topic creation request with a flat `courseId`. */
  datatype FlatTopicPost = FlatTopicPost(name: string, courseId: int)

  function FlatTopicPosts(topics: seq<string>, courseId: int): (r: seq<FlatTopicPost>)
    ensures |r| == |CCP.NonBlankTopics(topics)|
    ensures forall i :: 0 <= i < |r| ==> r[i] == FlatTopicPost(CCP.NonBlankTopics(topics)[i], courseId)
  {
    var names := CCP.NonBlankTopics(topics);
    seq(|names|, i requires 0 <= i < |names| => FlatTopicPost(names[i], courseId))
  }

  /** The two forms send the same topic names for the same rows, one nested and one flat. */
  lemma SameTopicsAsCreatePage(topics: seq<string>, courseId: int)
    ensures |FlatTopicPosts(topics, courseId)| == |CCP.TopicPosts(topics, courseId)|
    ensures forall i :: 0 <= i < |FlatTopicPosts(topics, courseId)| ==>
              FlatTopicPosts(topics, courseId)[i].name == CCP.TopicPosts(topics, courseId)[i].name
  {
  }

  class Form {
    var courseName: string
    var description: string
    var topics: seq<string>

    ghost predicate Valid()
      reads this
    {
      |topics| >= 1
    }

    constructor ()
      ensures Valid() && topics == CCP.InitialTopics && courseName == "" && description == ""
    {
      courseName, description, topics := "", "", CCP.InitialTopics;
    }

    method HandleAddTopic()
      requires Valid()
      modifies this
      ensures Valid() && topics == old(topics) + [""]
      ensures courseName == old(courseName) && description == old(description)
    {
      topics := topics + [""];
    }

    method HandleTopicChange(index: nat, value: string)
      requires Valid() && index < |topics|
      modifies this
      ensures Valid() && topics == CCP.ReplaceAt(old(topics), index, value)
      ensures courseName == old(courseName) && description == old(description)
    {
      topics := topics[index := value];
    }

    /** `handleSubmit`: the course, then its non-blank topics; the fields are cleared only
        when every request succeeded. */
    method HandleSubmit(createdId: Option<int>, topicsSucceeded: bool)
      returns (course: (string, string), posts: seq<FlatTopicPost>)
      requires Valid()
      modifies this
      ensures Valid() && course == (old(courseName), old(description))
      ensures posts == if createdId.Some? then FlatTopicPosts(old(topics), createdId.value) else []
      ensures createdId.Some? && topicsSucceeded ==>
                courseName == "" && description == "" && topics == CCP.InitialTopics
      ensures !(createdId.Some? && topicsSucceeded) ==>
                courseName == old(courseName) && description == old(description) && topics == old(topics)
    {
      course := (courseName, description);
      if createdId.None? {
        return course, [];
      }
      posts := FlatTopicPosts(topics, createdId.value);
      if topicsSucceeded {
        courseName, description, topics := "", "", CCP.InitialTopics;
      }
    }
  }
}
