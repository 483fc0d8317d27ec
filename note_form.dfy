/**
 * The note form: the title, content and tag fields, the tag list editing, the prefill from the
 * note being edited, and the submitted payload.
 */
module NoteForm {
  import opened Wrappers
  import opened Text
  import Seqs

  /** A note as the page holds it; any field may be null. */
  datatype Note = Note(id: Option<int>, title: Option<string>, content: Option<string>,
                       tags: Option<seq<string>>)

  /** What the form hands to the page on submit. */
  datatype Payload = Payload(id: Option<int>, title: string, content: string, tags: seq<string>)

  /** `handleAddTag`'s test: the trimmed tag is not blank and not already a tag. */
  predicate CanAddTag(tags: seq<string>, newTag: string) {
    Trim(newTag) != "" && Trim(newTag) !in tags
  }

  /** Adding keeps the tags free of duplicates, and removing keeps the other tags in order. */
  lemma TagEditsKeepDistinct(tags: seq<string>, newTag: string, t: string, other: string)
    requires Seqs.NoDuplicates(tags)
    ensures CanAddTag(tags, newTag) ==> Seqs.NoDuplicates(tags + [Trim(newTag)])
    ensures Seqs.IsSubsequence(Seqs.Filter(tags, (x: string) => x != t), tags)
    ensures t !in Seqs.Filter(tags, (x: string) => x != t)
    ensures other != t ==> (other in Seqs.Filter(tags, (x: string) => x != t) <==> other in tags)
  {
    Seqs.FilterIsSubsequence(tags, (x: string) => x != t);
    if other != t && other in tags {
      var i :| 0 <= i < |tags| && tags[i] == other;
    }
  }

  /** The browser's `required` check on the title input and the content textarea: each must be
      non-empty, though a value of spaces passes. */
  predicate RequiredFilled(title: string, content: string) {
    title != "" && content != ""
  }

  /** A payload reaches the page exactly when the content is non-empty and the title has a
      non-space character. The handler's own blank-title check is still reachable: a title of
      spaces passes the browser's check and is then refused. */
  lemma SubmitGate(title: string, content: string)
    ensures RequiredFilled(title, content) && Trim(title) != "" <==> content != "" && !AllSpace(title)
    ensures RequiredFilled(" ", content + "a") && Trim(" ") == ""
  {
    TrimShape(title);
    TrimShape(" ");
  }

  class Form {
    var title: string
    var content: string
    var tags: seq<string>
    var newTag: string
    var editingNote: Option<Note>

    constructor ()
      ensures title == "" && content == "" && tags == [] && newTag == "" && editingNote == None
    {
      title, content, tags, newTag, editingNote := "", "", [], "", None;
    }

    /** The effect on a new `editingNote`: its fields, missing ones as empty, or an empty form
        when there is none. The tag input is left alone. */
    method Prefill(note: Option<Note>)
      modifies this
      ensures editingNote == note && newTag == old(newTag)
      ensures note.Some? ==> title == note.value.title.GetOr("") && content == note.value.content.GetOr("")
                             && tags == note.value.tags.GetOr([])
      ensures note.None? ==> title == "" && content == "" && tags == []
    {
      editingNote := note;
      if note.Some? {
        title := note.value.title.GetOr("");
        content := note.value.content.GetOr("");
        tags := note.value.tags.GetOr([]);
      } else {
        title, content, tags := "", "", [];
      }
    }

    /** `handleAddTag`: the trimmed tag is appended and the input cleared, or nothing changes. */
    method HandleAddTag()
      modifies this
      ensures CanAddTag(old(tags), old(newTag)) ==> tags == old(tags) + [Trim(old(newTag))] && newTag == ""
      ensures !CanAddTag(old(tags), old(newTag)) ==> tags == old(tags) && newTag == old(newTag)
      ensures Seqs.NoDuplicates(old(tags)) ==> Seqs.NoDuplicates(tags)
      ensures title == old(title) && content == old(content) && editingNote == old(editingNote)
    {
      var t := Trim(newTag);
      if t != "" && t !in tags {
        tags := tags + [t];
        newTag := "";
      }
    }

    /** `handleRemoveTag`: every copy of the tag goes, the rest keep their order. */
    method HandleRemoveTag(tag: string)
      modifies this
      ensures tags == Seqs.Filter(old(tags), (x: string) => x != tag)
      ensures tag !in tags && Seqs.IsSubsequence(tags, old(tags))
      ensures title == old(title) && content == old(content) && newTag == old(newTag)
      ensures editingNote == old(editingNote)
    {
      Seqs.FilterIsSubsequence(tags, (x: string) => x != tag);
      tags := Seqs.Filter(tags, (x: string) => x != tag);
    }

    /** The submit button: the browser's check of the two `required` fields runs first, and
        an empty title or content keeps `handleSubmit` from running at all. Then a blank title
        is refused with nothing changed; otherwise the trimmed title and content, the tags and
        the edited note's id are handed over and the fields are cleared. */
    method HandleSubmit() returns (submitted: Option<Payload>)
      modifies this
      ensures !RequiredFilled(old(title), old(content)) || Trim(old(title)) == "" ==>
                submitted == None && title == old(title) && content == old(content)
                && tags == old(tags)
      ensures RequiredFilled(old(title), old(content)) && Trim(old(title)) != "" ==>
                submitted == Some(Payload(if old(editingNote).Some? then old(editingNote).value.id else None,
                                          Trim(old(title)), Trim(old(content)), old(tags)))
                && title == "" && content == "" && tags == []
      ensures newTag == old(newTag) && editingNote == old(editingNote)
    {
      if !RequiredFilled(title, content) || Trim(title) == "" {
        return None;
      }
      var id := if editingNote.Some? then editingNote.value.id else None;
      submitted := Some(Payload(id, Trim(title), Trim(content), tags));
      title, content, tags := "", "", [];
    }
  }

  /** A submitted payload never has a blank title, and its title has no surrounding
      whitespace. */
  lemma SubmittedTitleShape(title: string)
    requires Trim(title) != ""
    ensures !AllSpace(title)
    ensures !IsSpace(Trim(title)[0]) && !IsSpace(Trim(title)[|Trim(title)| - 1])
  {
    TrimShape(title);
  }
}
